/** Coroutine promises on the heap: a handler awaits sessions and child tasks, and the executor
    only ever sees the promise of the outermost task. */
module Coroutine {

  /** Made and awaited in one expression: the coroutine that awaits it is the one to resume. */
  class SessionAwaiter {
    const id: nat
    const waiting: Promise
    var hasResult: bool

    constructor (id: nat, waiting: Promise)
      ensures this.id == id && this.waiting == waiting && !hasResult
    {
      this.id, this.waiting, hasResult := id, waiting, false;
    }
  }

  class Promise {
    var parent: Promise?
    var awaiter: SessionAwaiter?
    var done: bool
    var failed: bool        // an exception was stored
    ghost const pos: nat    // how deep in its handler the task was started

    /** A coroutine body starts at once, without a parent. */
    constructor (ghost pos: nat)
      ensures parent == null && awaiter == null && !done && !failed && this.pos == pos
    {
      this.pos := pos;
      parent, awaiter, done, failed := null, null, false, false;
    }
  }

  /** What the running coroutine of a handler may do next, and the executor's resume. */
  datatype Act = Call | Await(id: nat) | Return | Throw | Resume

  /** The handler as its author sees it: how many tasks are nested, how many of them have been
      awaited by their caller, and what the innermost one waits for. */
  datatype View =
    | Active(depth: nat, linked: nat)
    | Waiting(depth: nat, id: nat)
    | Over(failed: bool)

  predicate Fits(v: View, a: Act) {
    match a
    case Resume => v.Waiting?
    case _ => v.Active?
  }

  function Step(v: View, a: Act): View
    requires Fits(v, a) && (v.Active? ==> v.depth > 0)
  {
    match a
    case Call => v.(depth := v.depth + 1)
    case Await(id) => Waiting(v.depth, id)
    case Resume => Active(v.depth, v.depth)
    case _ =>
      if v.depth == 1 then Over(a.Throw?)
      else Active(v.depth - 1, if v.linked < v.depth then v.linked else v.depth - 1)
  }

  /** A promise and all above it, outermost first: each but the first has the one before as its
      parent. Positions go up along the way, so no promise is in it twice. */
  ghost predicate Climbs(path: seq<Promise>, from: Promise)
    reads path
  {
    && path != [] && path[|path| - 1] == from && path[0].parent == null
    && (forall i | 0 < i < |path| :: path[i].parent == path[i - 1])
    && (forall i | 0 <= i < |path| :: path[i].pos == path[0].pos + i)
  }

  /** The promises of a path, as a set. */
  ghost predicate Consists(up: set<Promise>, path: seq<Promise>) {
    && (forall i | 0 <= i < |path| :: path[i] in up)
    && (forall p | p in up :: p in path)
  }

  /** Writes an awaiter into a promise and everything above it, up to one with no parent. */
  method Propagate(from: Promise, a: SessionAwaiter?, ghost path: seq<Promise>, ghost up: set<Promise>)
    requires Climbs(path, from) && Consists(up, path)
    modifies up`awaiter
    ensures forall p | p in up :: p.awaiter == a
  {
    var p: Promise? := from;
    ghost var k := |path|;
    while p != null
      invariant 0 <= k <= |path|
      invariant p == if k > 0 then path[k - 1] else null
      invariant forall i | k <= i < |path| :: path[i].awaiter == a
      decreases k
    {
      ghost var next: Promise? := if k > 1 then path[k - 2] else null;
      assert p.parent == next;
      p.awaiter := a;
      p := p.parent;
      k := k - 1;
    }
  }

  /** `co_await` on a task. The test is whether the task ever awaited a session: one that did is
      linked to its caller, and its awaiter is handed up. For a task just started that tells
      exactly whether it has finished (AwaitStarted). */
  method CoAwait(child: Promise, caller: Promise, ghost path: seq<Promise>, ghost up: set<Promise>)
      returns (ready: bool)
    requires Climbs(path, caller) && Consists(up, path) && child !in up
    modifies up`awaiter, child`parent
    ensures ready <==> child.awaiter == null
    ensures child.parent == if ready then old(child.parent) else caller
    ensures forall p | p in up :: p.awaiter == if ready then old(p.awaiter) else child.awaiter
  {
    if child.awaiter == null {
      return true;
    }
    child.parent := caller;
    Propagate(caller, child.awaiter, path, up);
    return false;
  }

  // ---- The unfinished tasks of one handler, outermost first ----

  /** No task is listed twice: each stands where it was started. */
  ghost predicate Distinct(s: seq<Promise>) {
    forall i | 0 <= i < |s| :: s[i].pos == i
  }

  ghost predicate Among(s: seq<Promise>, m: set<Promise>) {
    forall i | 0 <= i < |s| :: s[i] in m
  }

  ghost predicate Unfinished(s: seq<Promise>)
    reads s`done, s`failed
  {
    forall i | 0 <= i < |s| :: !s[i].done && !s[i].failed
  }

  /** The task above task i, if i is linked: all are but those from a to b - 1. */
  ghost function Above(s: seq<Promise>, i: nat, a: nat, b: nat): Promise?
    requires i < |s|
  {
    if 0 < i && !(a <= i < b) then s[i - 1] else null
  }

  ghost predicate Links(s: seq<Promise>, a: nat, b: nat)
    reads s`parent
  {
    forall i | 0 <= i < |s| :: s[i].parent == Above(s, i, a, b)
  }

  /** The tasks from position n on hold this awaiter. */
  ghost predicate Handed(s: seq<Promise>, n: nat, a: SessionAwaiter)
    reads s`awaiter
  {
    forall i | n <= i < |s| :: s[i].awaiter == a
  }

  /** Every task holds the awaiter of the innermost one. */
  ghost predicate Coherent(s: seq<Promise>, id: nat)
    reads s`awaiter
  {
    && s != []
    && var a := s[|s| - 1].awaiter;
       a != null && a.id == id && a.waiting == s[|s| - 1] && Handed(s, 0, a)
  }

  /** The tasks that an awaiter at position n has to reach. */
  lemma Path(s: seq<Promise>, lo: nat, n: nat, a: nat, b: nat) returns (path: seq<Promise>, up: set<Promise>)
    requires lo <= n < |s| && Distinct(s) && Links(s, a, b)
    requires (lo == 0 && n < a) || (lo == n && a <= n < b)
    ensures Climbs(path, s[n]) && Consists(up, path)
    ensures forall i | 0 <= i < |s| :: s[i] in up <==> lo <= i <= n
    ensures forall p | p in up :: p in s
  {
    path := s[lo..n + 1];
    up := set p | p in path;
    PathClimbs(s, path, lo, n, a, b);
    forall i | 0 <= i < |s|
      ensures s[i] in up <==> lo <= i <= n
    {
      if lo <= i <= n { assert path[i - lo] == s[i]; }
    }
  }

  lemma PathClimbs(s: seq<Promise>, path: seq<Promise>, lo: nat, n: nat, a: nat, b: nat)
    requires lo <= n < |s| && Distinct(s) && Links(s, a, b)
    requires (lo == 0 && n < a) || (lo == n && a <= n < b)
    requires |path| == n + 1 - lo && forall i | 0 <= i < |path| :: path[i] == s[lo + i]
    ensures Climbs(path, s[n])
  {
    forall i | 0 <= i < |path|
      ensures path[i].parent == Above(s, lo + i, a, b) && path[i].pos == lo + i
    {
      assert path[i] == s[lo + i];
    }
  }

  /** Those whose bodies are just starting a task, above the running one. */
  function Callers(s: seq<Promise>, linked: nat): seq<Promise>
    requires 0 < linked <= |s|
  {
    s[linked - 1..|s| - 1]
  }

  /** The awaiter goes to the running task and to all that it is linked to. */
  method Announce(current: Promise, a: SessionAwaiter, ghost s: seq<Promise>, ghost m: set<Promise>, ghost linked: nat)
    requires 0 < linked <= |s| && Distinct(s) && Among(s, m) && Links(s, linked, |s|) && current == s[|s| - 1]
    modifies m`awaiter
    ensures current.awaiter == a && (linked == |s| ==> Handed(s, 0, a))
  {
    ghost var lo := if linked == |s| then 0 else |s| - 1;
    ghost var path, up := Path(s, lo, |s| - 1, linked, |s|);
    Propagate(current, a, path, up);
  }

  /** `co_await` on the task at position n, just started by the one before it. */
  method AwaitStarted(child: Promise, caller: Promise, ghost s: seq<Promise>, ghost m: set<Promise>,
                      ghost n: nat, ghost linked: nat)
      returns (ready: bool)
    requires 0 < linked <= n < |s| && child == s[n] && caller == s[n - 1] && Distinct(s) && Among(s, m)
    requires Links(s, linked, n + 1)
    requires child.done <==> child.awaiter == null
    modifies m`awaiter, child`parent
    ensures ready <==> child.done
    ensures ready ==> Links(s, linked, n + 1)
    ensures !ready ==> Links(s, linked, n) && s[n - 1].awaiter == old(child.awaiter)
    ensures !ready && n == linked ==> forall i | 0 <= i < n :: s[i].awaiter == old(child.awaiter)
    ensures forall i | 0 <= i < |s| && (ready || i >= n) :: s[i].awaiter == old(s[i].awaiter)
  {
    hide Climbs, Consists;
    ghost var lo := if n == linked then 0 else n - 1;
    ghost var path, up := Path(s, lo, n - 1, linked, n + 1);
    assert child.parent == Above(s, n, linked, n + 1);
    ready := CoAwait(child, caller, path, up);
  }

  /** One caller back: it finds the task it started unfinished and hands the awaiter up. */
  method HandUp(child: Promise, caller: Promise, ghost a: SessionAwaiter,
                ghost s: seq<Promise>, ghost m: set<Promise>, ghost n: nat, ghost linked: nat)
    requires 0 < linked <= n < |s| && child == s[n] && caller == s[n - 1] && Distinct(s) && Among(s, m)
    requires Links(s, linked, n + 1) && Unfinished(s) && Handed(s, n, a)
    modifies m`awaiter, m`parent
    ensures Links(s, linked, n) && Handed(s, if n == linked then 0 else n - 1, a)
  {
    var ready := AwaitStarted(child, caller, s, m, n, linked);
  }

  /** Control goes back through every body that was starting a task: each finds it unfinished. */
  method Unwind(current: Promise, callers: seq<Promise>, ghost a: SessionAwaiter,
                ghost s: seq<Promise>, ghost m: set<Promise>, ghost linked: nat)
    requires 0 < linked <= |s| && Distinct(s) && Among(s, m) && Links(s, linked, |s|) && Unfinished(s)
    requires current == s[|s| - 1] && callers == Callers(s, linked)
    requires current.awaiter == a && (linked == |s| ==> Handed(s, 0, a))
    modifies m`awaiter, m`parent
    ensures Links(s, |s|, |s|) && Handed(s, 0, a)
  {
    var i, child := |callers|, current;
    while i > 0
      invariant 0 <= i <= |callers| && Links(s, linked, linked + i)
      invariant child == s[linked - 1 + i]
      invariant Handed(s, if i == 0 then 0 else linked - 1 + i, a)
    {
      i := i - 1;
      HandUp(child, callers[i], a, s, m, linked + i, linked);
      child := callers[i];
    }
  }

  /** The running task is suspended, and with it all that are above it. */
  method Suspend(current: Promise, callers: seq<Promise>, a: SessionAwaiter,
                 ghost s: seq<Promise>, ghost m: set<Promise>, ghost linked: nat)
    requires 0 < linked <= |s| && Distinct(s) && Among(s, m) && Links(s, linked, |s|) && Unfinished(s)
    requires current == s[|s| - 1] && callers == Callers(s, linked)
    modifies m`awaiter, m`parent
    ensures Links(s, |s|, |s|) && Handed(s, 0, a)
  {
    Announce(current, a, s, m, linked);
    Unwind(current, callers, a, s, m, linked);
  }

  /** A running handler: the tasks from position linked on have just been started. */
  ghost predicate Going(s: seq<Promise>, m: set<Promise>, linked: nat)
    reads m
  {
    && 0 < linked <= |s| && Distinct(s) && Among(s, m) && Unfinished(s) && Links(s, linked, |s|)
    && forall i | linked <= i < |s| :: s[i].awaiter == null
  }

  /** The handler without its innermost task, and its callers without theirs. */
  lemma Shorter(s: seq<Promise>, m: set<Promise>, linked: nat, callers: seq<Promise>)
    requires 0 < linked <= |s| && Distinct(s) && Among(s, m) && Links(s, linked, |s|)
    requires forall i | 0 <= i < |s| - 1 :: !s[i].done && !s[i].failed && (i >= linked ==> s[i].awaiter == null)
    requires callers == Callers(s, linked)
    ensures var t, l := s[..|s| - 1], if linked < |s| then linked else |s| - 1;
            t != [] ==>
              && Going(t, m, l) && Rest(callers) == Callers(t, l) && t[0] == s[0]
              && t[|t| - 1] == s[|s| - 2]
  {
    var t, l := s[..|s| - 1], if linked < |s| then linked else |s| - 1;
    forall i | 0 <= i < |t|
      ensures t[i].parent == Above(t, i, l, |t|)
    {
      assert s[i].parent == Above(s, i, linked, |s|);
    }
    if t != [] { assert Rest(callers) == Callers(t, l); }
  }

  function Rest(callers: seq<Promise>): seq<Promise> {
    if callers == [] then [] else callers[..|callers| - 1]
  }

  /** The innermost task ends: control goes to its parent, or back to the caller that started it. */
  method EndTask(current: Promise, callers: seq<Promise>, throws: bool,
                 ghost s: seq<Promise>, ghost m: set<Promise>, ghost linked: nat)
      returns (next: Promise?)
    requires Going(s, m, linked) && current == s[|s| - 1] && callers == Callers(s, linked)
    modifies m`awaiter, current
    ensures current.done && current.failed == throws && Links(s, linked, |s|)
    ensures forall i | 0 <= i < |s| - 1 :: !s[i].done && !s[i].failed && (i >= linked ==> s[i].awaiter == null)
    ensures next == if |s| == 1 then null else s[|s| - 2]
  {
    assert forall i | 0 <= i < |s| - 1 :: s[i] != current;
    assert current.parent == Above(s, |s| - 1, linked, |s|);
    current.done, current.failed := true, throws;
    next := null;
    if current.parent != null {
      next := current.parent;
    } else if |callers| > 0 {
      var ready := AwaitStarted(current, callers[|callers| - 1], s, m, |s| - 1, linked);
      if ready { next := callers[|callers| - 1]; }
    }
  }

  /** The same, and the handler goes on without that task. */
  method EndGoing(current: Promise, callers: seq<Promise>, throws: bool,
                  ghost s: seq<Promise>, ghost m: set<Promise>, ghost linked: nat)
      returns (next: Promise?, rest: seq<Promise>, ghost t: seq<Promise>, ghost l: nat)
    requires Going(s, m, linked) && current == s[|s| - 1] && callers == Callers(s, linked)
    modifies m`awaiter, current
    ensures current.done && current.failed == throws
    ensures t == s[..|s| - 1] && l == (if linked < |s| then linked else |t|) && |t| == |s| - 1
    ensures t == [] ==> next == null
    ensures t != [] ==> Going(t, m, l) && t[0] == s[0] && next == t[|t| - 1] && rest == Callers(t, l)
  {
    hide Distinct, Among, Unfinished, Links, Handed, Coherent;
    t, l := s[..|s| - 1], if linked < |s| then linked else |s| - 1;
    rest := Rest(callers);
    next := EndTask(current, callers, throws, s, m, linked);
    Shorter(s, m, linked, callers);
  }

  /** Every task holds the awaiter of the innermost one, so the handler waits as a whole. */
  lemma AllWait(s: seq<Promise>, m: set<Promise>, a: SessionAwaiter, id: nat)
    requires s != [] && Distinct(s) && Among(s, m) && Unfinished(s) && Links(s, |s|, |s|) && Handed(s, 0, a)
    requires a.id == id && a.waiting == s[|s| - 1]
    ensures Going(s, m, |s|) && Coherent(s, id) && s[0].awaiter == a
  {
  }

  class Chain {
    const root: Promise
    /** The unfinished tasks, outermost first; the last one runs or waits. */
    ghost var stack: seq<Promise>
    ghost var members: set<Promise>
    ghost var view: View

    ghost predicate Valid()
      reads this, root, members
    {
      match view
      case Over(failed) => stack == [] && root.done && root.failed == failed
      case Waiting(depth, id) =>
        && |stack| == depth && stack != [] && stack[0] == root
        && Going(stack, members, depth) && Coherent(stack, id)
      case Active(depth, linked) => |stack| == depth && Going(stack, members, linked) && stack[0] == root
    }

    /** The running task and the bodies that are just starting one: the native call stack. */
    ghost predicate Running(current: Promise?, callers: seq<Promise>)
      reads this
    {
      view.Active? ==>
        && 0 < view.linked <= view.depth == |stack|
        && current == stack[|stack| - 1] && callers == Callers(stack, view.linked)
    }

    /** The handler's body starts running. */
    constructor ()
      ensures Valid() && view == Active(1, 1) && fresh(members) && stack == [root]
    {
      var p := new Promise(0);
      root := p;
      stack := [p];
      members := {p};
      view := Active(1, 1);
    }

    /** The running task calls another one, which starts at once. */
    method DoCall(current: Promise, callers: seq<Promise>) returns (child: Promise, rest: seq<Promise>)
      requires Valid() && view.Active? && Running(current, callers)
      modifies this
      ensures Valid() && view == Step(old(view), Call)
      ensures fresh(child) && stack == old(stack) + [child] && members == old(members) + {child}
      ensures Running(child, rest) && rest == callers + [current]
    {
      rest := callers + [current];
      child := new Promise(|stack|);
      stack := stack + [child];
      members := members + {child};
      view := Step(view, Call);
    }

    /** The running task waits for a session. Every caller that is just starting a task finds it
        unfinished, links it and passes the awaiter up, until control is back in the executor. */
    method DoAwait(current: Promise, callers: seq<Promise>, id: nat)
      requires Valid() && view.Active? && Running(current, callers)
      modifies this`view, members`awaiter, members`parent
      ensures Valid() && view == Step(old(view), Await(id))
      ensures root.awaiter != null && root.awaiter.id == id && root.awaiter.waiting == current
      ensures fresh(root.awaiter)
    {
      hide Distinct, Among, Unfinished, Links, Handed, Coherent;
      var a := new SessionAwaiter(id, current);
      Suspend(current, callers, a, stack, members, view.linked);
      view := Waiting(|stack|, id);
      AllWait(stack, members, a, id);
    }

    /** The executor, which only knows the root, sets the result and resumes what waits. */
    method DoResume() returns (leaf: Promise)
      requires Valid() && view.Waiting?
      modifies this`view, root.awaiter
      ensures Valid() && view == Step(old(view), Resume) && Running(leaf, [])
      ensures leaf == stack[|stack| - 1] && root.awaiter.hasResult
    {
      root.awaiter.hasResult := true;
      leaf := root.awaiter.waiting;
      view := Step(view, Resume);
    }

    /** The running task ends, by returning or by an exception. A linked one resumes its parent;
        one that was just started gives control back to its caller, who finds it finished. */
    method DoEnd(current: Promise, callers: seq<Promise>, throws: bool)
        returns (next: Promise?, rest: seq<Promise>)
      requires Valid() && view.Active? && Running(current, callers)
      modifies this`view, this`stack, members`awaiter, current
      ensures Valid() && view == Step(old(view), if throws then Throw else Return)
      ensures stack == old(stack)[..|old(stack)| - 1] && current.done && current.failed == throws
      ensures next == if stack == [] then null else stack[|stack| - 1]
      ensures Running(next, rest)
    {
      hide Going, Coherent, Above, Callers;
      ghost var t, l;
      next, rest, t, l := EndGoing(current, callers, throws, stack, members, view.linked);
      stack := t;
      if t == [] {
        view := Over(throws);
      } else {
        view := Active(|t|, l);
      }
    }

    /** One action of the handler or of the executor. */
    method Play(a: Act, current: Promise?, callers: seq<Promise>)
        returns (next: Promise?, rest: seq<Promise>)
      requires Valid() && Fits(view, a) && Running(current, callers)
      modifies this, members, if view.Waiting? then {root.awaiter} else {}
      ensures Valid() && view == Step(old(view), a) && Running(next, rest)
      ensures fresh(members - old(members))
      ensures view.Waiting? ==> fresh(root.awaiter)
    {
      hide Distinct, Unfinished, Links, Handed, Coherent;
      next, rest := null, [];
      match a {
        case Call =>
          next, rest := DoCall(current, callers);
        case Await(id) =>
          DoAwait(current, callers, id);
        case Resume =>
          next := DoResume();
        case _ =>
          next, rest := DoEnd(current, callers, a.Throw?);
      }
    }

    /** What the executor tests to tell a finished handler from a waiting one. */
    method IsDone() returns (done: bool)
      requires Valid()
      ensures done <==> view.Over?
    {
      done := root.done;
    }
  }

  predicate Plays(v: View, script: seq<Act>)
    requires v.Active? ==> v.depth > 0
    decreases |script|
  {
    script == [] || (Fits(v, script[0]) && (v.Waiting? ==> v.depth > 0) && Plays(Step(v, script[0]), script[1..]))
  }

  function ViewAfter(v: View, script: seq<Act>): View
    requires v.Active? ==> v.depth > 0
    requires Plays(v, script)
    decreases |script|
  {
    if script == [] then v else ViewAfter(Step(v, script[0]), script[1..])
  }

  lemma PlaysOn(v: View, script: seq<Act>, i: nat)
    requires i < |script| && (v.Active? ==> v.depth > 0) && Plays(v, script[i..])
    ensures Fits(v, script[i]) && Plays(Step(v, script[i]), script[i + 1..])
    ensures var w := Step(v, script[i]);
            (w.Active? ==> w.depth > 0) && ViewAfter(v, script[i..]) == ViewAfter(w, script[i + 1..])
  {
    assert script[i..][1..] == script[i + 1..];
  }

  /** Any handler at all, as the list of what its running task does next, with the executor's
      resumes in between: the promises follow the handler's own nesting, and whenever it waits
      the root's awaiter carries the id awaited last and resumes the innermost task. */
  method RunHandler(script: seq<Act>) returns (c: Chain)
    requires Plays(Active(1, 1), script)
    ensures c.Valid() && c.view == ViewAfter(Active(1, 1), script)
    ensures c.view.Waiting? ==>
              && c.root.awaiter != null && c.root.awaiter.id == c.view.id
              && c.root.awaiter.waiting == c.stack[|c.stack| - 1]
    ensures c.view.Over? <==> c.root.done
  {
    hide Distinct, Links;
    c := new Chain();
    var current: Promise? := c.root;
    var callers: seq<Promise> := [];
    for i := 0 to |script|
      invariant fresh(c) && fresh(c.members) && c.Valid() && c.Running(current, callers)
      invariant c.view.Waiting? ==> fresh(c.root.awaiter)
      invariant Plays(c.view, script[i..])
      invariant ViewAfter(c.view, script[i..]) == ViewAfter(Active(1, 1), script)
    {
      PlaysOn(c.view, script, i);
      current, callers := c.Play(script[i], current, callers);
    }
  }
}
