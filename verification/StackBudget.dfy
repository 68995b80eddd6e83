/** Worst-case stack depth of a call graph with context cuts (`deepest`) and plain reachability
    (`reachable`), from host/misc/nios_stack_budget.py. */
module StackBudget {

  type Func = string

  /** While `ctx` is on the stack, `func` cannot reach `callees`; AllCallees stands for the Python
      None: the call returns before it opens a frame. */
  datatype Callees = AllCallees | Only(those: set<Func>)
  datatype Cut = Cut(ctx: Func, func: Func, callees: Callees)

  datatype Graph = Graph(edges: map<Func, set<Func>>, frame: map<Func, nat>, cuts: seq<Cut>)

  /** The memo key: a function and the cut contexts that are on the stack below it. */
  datatype Key = Key(f: Func, active: set<Func>)

  /** What the cuts leave of a function in its context. */
  datatype Node = Node(callees: set<Func>, own: nat, cut: bool)

  /** One line of the report: frame size and label, where a cut function is marked. */
  datatype Entry = Entry(own: nat, f: Func, cut: bool)

  datatype Result = Found(depth: nat, path: seq<Entry>) | Recursion(cycle: seq<Func>)

  // ----- Call chains

  /** Every callee is a function of the image with a known frame. */
  predicate Closed(g: Graph) {
    && g.edges.Keys == g.frame.Keys
    && forall f, h :: f in g.edges && h in g.edges[f] ==> h in g.edges
  }

  function Contexts(g: Graph): set<Func> { set c | c in g.cuts :: c.ctx }

  /** The first n cuts applied in order. */
  function Applied(g: Graph, k: Key, n: nat): (r: Node)
    requires Closed(g) && k.f in g.edges && n <= |g.cuts|
    ensures r.callees <= g.edges[k.f]
  {
    if n == 0 then Node(g.edges[k.f], g.frame[k.f], false)
    else
      var r, c := Applied(g, k, n - 1), g.cuts[n - 1];
      if c.func == k.f && c.ctx in k.active then
        match c.callees
        case AllCallees => Node({}, 0, true)
        case Only(s) => Node(r.callees - s, r.own, true)
      else r
  }

  function NodeOf(g: Graph, k: Key): (r: Node)
    requires Closed(g) && k.f in g.edges
    ensures r.callees <= g.edges[k.f]
  {
    Applied(g, k, |g.cuts|)
  }

  /** The contexts on the stack while k's callees run. */
  function Inner(g: Graph, k: Key): set<Func> {
    if k.f in Contexts(g) then k.active + {k.f} else k.active
  }

  predicate InGraph(g: Graph, k: Key) { k.f in g.edges && k.active <= Contexts(g) }

  predicate Calls(g: Graph, k: Key, k': Key)
    requires Closed(g) && k.f in g.edges
  {
    k'.f in NodeOf(g, k).callees && k'.active == Inner(g, k)
  }

  /** A call chain: every step is a call that the cuts allow in its context. */
  ghost predicate Chain(g: Graph, k: Key, c: seq<Key>)
    requires Closed(g)
  {
    && |c| > 0 && c[0] == k
    && (forall i :: 0 <= i < |c| ==> InGraph(g, c[i]))
    && (forall i :: 0 < i < |c| ==> Calls(g, c[i - 1], c[i]))
  }

  ghost predicate Repeats(c: seq<Key>) {
    exists i, j :: 0 <= i < j < |c| && c[i] == c[j]
  }

  /** Stack bytes of a chain. */
  ghost function Weight(g: Graph, c: seq<Key>): nat
    requires Closed(g) && forall i :: 0 <= i < |c| ==> c[i].f in g.edges
  {
    if c == [] then 0 else NodeOf(g, c[0]).own + Weight(g, c[1..])
  }

  function EntryOf(g: Graph, k: Key): Entry
    requires Closed(g) && k.f in g.edges
  {
    Entry(NodeOf(g, k).own, k.f, NodeOf(g, k).cut)
  }

  ghost predicate Describes(g: Graph, c: seq<Key>, path: seq<Entry>)
    requires Closed(g) && forall i :: 0 <= i < |c| ==> c[i].f in g.edges
  {
    |path| == |c| && forall i :: 0 <= i < |c| ==> path[i] == EntryOf(g, c[i])
  }

  /** The naive answer: no chain from k is deeper, and the path is one that deep. */
  ghost predicate Deepest(g: Graph, k: Key, depth: nat, path: seq<Entry>)
    requires Closed(g)
  {
    && (forall c :: Chain(g, k, c) ==> Weight(g, c) <= depth)
    && (exists c :: Chain(g, k, c) && Weight(g, c) == depth && Describes(g, c, path))
  }

  ghost predicate Acyclic(g: Graph, k: Key)
    requires Closed(g)
  {
    forall c :: Chain(g, k, c) ==> !Repeats(c)
  }

  // ----- Lemmas about chains

  lemma CalleeInGraph(g: Graph, k: Key, k': Key)
    requires Closed(g) && InGraph(g, k) && Calls(g, k, k')
    ensures InGraph(g, k')
  {
    if k.f in Contexts(g) { assert {k.f} <= Contexts(g); }
  }

  lemma ChainTail(g: Graph, k: Key, c: seq<Key>)
    requires Closed(g) && Chain(g, k, c) && |c| > 1
    ensures Calls(g, k, c[1]) && Chain(g, c[1], c[1..])
    ensures Weight(g, c) == NodeOf(g, k).own + Weight(g, c[1..])
  {
    var d := c[1..];
    assert forall i :: 0 <= i < |d| ==> d[i] == c[i + 1];
    assert Calls(g, c[0], c[1]);
    forall i | 0 < i < |d| ensures Calls(g, d[i - 1], d[i]) {
      assert Calls(g, c[i + 1 - 1], c[i + 1]);
    }
  }

  lemma ChainCons(g: Graph, k: Key, c: seq<Key>, path: seq<Entry>)
    requires Closed(g) && InGraph(g, k) && |c| > 0 && Chain(g, c[0], c) && Calls(g, k, c[0])
    requires Describes(g, c, path)
    ensures Chain(g, k, [k] + c)
    ensures Weight(g, [k] + c) == NodeOf(g, k).own + Weight(g, c)
    ensures Describes(g, [k] + c, [EntryOf(g, k)] + path)
  {
    var d := [k] + c;
    assert d[1..] == c;
    forall i | 0 < i < |d| ensures Calls(g, d[i - 1], d[i]) {
      if i > 1 { assert Calls(g, c[i - 2], c[i - 1]); }
    }
  }

  lemma ChainSingle(g: Graph, k: Key)
    requires Closed(g) && InGraph(g, k)
    ensures Chain(g, k, [k]) && Weight(g, [k]) == NodeOf(g, k).own && Describes(g, [k], [EntryOf(g, k)])
  {
    assert [k][1..] == [];
  }

  lemma ChainSnoc(g: Graph, k: Key, c: seq<Key>, k': Key)
    requires Closed(g) && Chain(g, k, c) && InGraph(g, k') && Calls(g, c[|c| - 1], k')
    ensures Chain(g, k, c + [k'])
  {
  }

  ghost predicate ClosedUnderCalls(g: Graph, s: set<Key>)
    requires Closed(g)
  {
    forall k, k' :: k in s && InGraph(g, k) && Calls(g, k, k') ==> k' in s
  }

  /** A chain that starts in a set closed under calls stays in it. */
  lemma {:induction false} ChainStays(g: Graph, s: set<Key>, c: seq<Key>, n: nat)
    requires Closed(g) && ClosedUnderCalls(g, s)
    requires n < |c| && c[0] in s && Chain(g, c[0], c)
    ensures c[n] in s
  {
    if n > 0 {
      ChainStays(g, s, c, n - 1);
      assert Calls(g, c[n - 1], c[n]);
    }
  }

  /** A table closed under calls that holds the answer for each of its keys. */
  ghost predicate Answers(g: Graph, memo: map<Key, (nat, seq<Entry>)>)
    requires Closed(g)
  {
    && ClosedUnderCalls(g, memo.Keys)
    && (forall k :: k in memo ==> InGraph(g, k) && Deepest(g, k, memo[k].0, memo[k].1) && Acyclic(g, k))
  }

  /** All callees of the key are answered, none deeper than best. */
  ghost predicate CalleesBelow(g: Graph, memo: map<Key, (nat, seq<Entry>)>, key: Key, best: nat)
    requires Closed(g) && key.f in g.edges
  {
    forall k :: Calls(g, key, k) ==> k in memo && memo[k].0 <= best
  }

  lemma ChainBelow(g: Graph, memo: map<Key, (nat, seq<Entry>)>, key: Key, best: nat, c: seq<Key>)
    requires Closed(g) && Answers(g, memo) && InGraph(g, key) && CalleesBelow(g, memo, key, best)
    requires Chain(g, key, c)
    ensures Weight(g, c) <= NodeOf(g, key).own + best
  {
    if |c| == 1 {
      ChainSingle(g, key);
      assert c == [key];
    } else {
      ChainTail(g, key, c);
    }
  }

  lemma ChainSimple(g: Graph, memo: map<Key, (nat, seq<Entry>)>, key: Key, best: nat, c: seq<Key>)
    requires Closed(g) && Answers(g, memo) && InGraph(g, key) && CalleesBelow(g, memo, key, best)
    requires key !in memo && Chain(g, key, c)
    ensures !Repeats(c)
  {
    if |c| > 1 {
      ChainTail(g, key, c);
      var d := c[1..];
      forall i, j | 0 <= i < j < |c| ensures c[i] != c[j] {
        ChainStays(g, memo.Keys, d, j - 1);
        assert !Repeats(d);
        if i > 0 { assert d[i - 1] == c[i] && d[j - 1] == c[j]; }
      }
    }
  }

  /** The entry computed from the callees' entries answers the key itself. */
  lemma Finished(g: Graph, memo: map<Key, (nat, seq<Entry>)>, key: Key, best: (nat, seq<Entry>))
    requires Closed(g) && Answers(g, memo) && InGraph(g, key) && key !in memo
    requires CalleesBelow(g, memo, key, best.0)
    requires best == (0, []) || exists k :: Calls(g, key, k) && k in memo && memo[k] == best
    ensures Deepest(g, key, NodeOf(g, key).own + best.0, [EntryOf(g, key)] + best.1)
    ensures Acyclic(g, key)
  {
    forall c | Chain(g, key, c) ensures Weight(g, c) <= NodeOf(g, key).own + best.0 && !Repeats(c) {
      ChainBelow(g, memo, key, best.0, c);
      ChainSimple(g, memo, key, best.0, c);
    }
    if best == (0, []) {
      ChainSingle(g, key);
      assert [EntryOf(g, key)] + best.1 == [EntryOf(g, key)];
    } else {
      var k :| Calls(g, key, k) && k in memo && memo[k] == best;
      var c :| Chain(g, k, c) && Weight(g, c) == best.0 && Describes(g, c, best.1);
      ChainCons(g, key, c, best.1);
    }
  }

  /** Recording that entry keeps the table. */
  lemma Recorded(g: Graph, memo: map<Key, (nat, seq<Entry>)>, key: Key, best: (nat, seq<Entry>))
    requires Closed(g) && Answers(g, memo) && InGraph(g, key) && key !in memo
    requires CalleesBelow(g, memo, key, best.0)
    requires best == (0, []) || exists k :: Calls(g, key, k) && k in memo && memo[k] == best
    ensures Answers(g, memo[key := (NodeOf(g, key).own + best.0, [EntryOf(g, key)] + best.1)])
  {
    Finished(g, memo, key, best);
  }

  lemma ChainInit(g: Graph, k: Key, c: seq<Key>)
    requires Closed(g) && Chain(g, k, c)
    ensures |c| > 1 ==> Chain(g, k, c[..|c| - 1])
  {
  }

  /** Functions that call each other in a circle. */
  predicate CallCycle(edges: map<Func, set<Func>>, p: seq<Func>) {
    && |p| >= 2 && p[0] == p[|p| - 1]
    && forall i :: 0 < i < |p| ==> CallsDirectly(edges, p[i - 1], p[i])
  }

  lemma ChainCycle(g: Graph, k: Key, c: seq<Key>, fs: seq<Func>, i: nat)
    requires Closed(g) && Chain(g, k, c) && |fs| == |c| && forall j :: 0 <= j < |c| ==> c[j].f == fs[j]
    requires i < |fs| - 1 && fs[i] == fs[|fs| - 1]
    ensures CallCycle(g.edges, fs[i..])
  {
    var p := fs[i..];
    forall j | 0 < j < |p| ensures CallsDirectly(g.edges, p[j - 1], p[j]) {
      assert Calls(g, c[i + j - 1], c[i + j]);
    }
  }

  // ----- The memoised search

  /** The shared state of the recursion. The root is a ghost: it only names where chains start. */
  class Search {
    const g: Graph
    var memo: map<Key, (nat, seq<Entry>)>
    var onpath: set<Key>
    var stack: seq<Func>
    ghost const root: Key
    ghost var chain: seq<Key>

    constructor (g: Graph, ghost root: Key)
      requires Closed(g)
      ensures this.g == g && this.root == root && Valid()
      ensures memo == map[] && onpath == {} && stack == [] && chain == []
    {
      this.g, this.root := g, root;
      memo, onpath, stack, chain := map[], {}, [], [];
    }

    /** The stack is a chain from the root of keys under exploration. */
    ghost predicate OnStack()
      reads this
    {
      && Closed(g)
      && |stack| == |chain|
      && (forall i :: 0 <= i < |chain| ==> chain[i].f == stack[i])
      && (forall k :: k in onpath <==> k in chain)
      && (chain != [] ==> Chain(g, root, chain))
    }

    /** The memo is closed under calls, and each entry is the answer for its key. */
    ghost predicate MemoOk()
      reads this
      requires Closed(g)
    {
      Answers(g, memo)
    }

    ghost predicate Valid()
      reads this
    {
      OnStack() && MemoOk() && memo.Keys !! onpath
    }

    /** May k be explored next? */
    ghost predicate Next(k: Key)
      reads this
    {
      && Closed(g) && InGraph(g, k)
      && (chain == [] ==> k == root)
      && (chain != [] ==> InGraph(g, chain[|chain| - 1]) && Calls(g, chain[|chain| - 1], k))
    }

    ghost function OnPathWith(active: set<Func>): set<Func>
      reads this
    {
      set k | k in onpath && k.active == active :: k.f
    }

    lemma NextChain(k: Key)
      requires Valid() && Next(k)
      ensures Chain(g, root, chain + [k])
    {
      if chain == [] { ChainSingle(g, k); assert chain + [k] == [k]; } else { ChainSnoc(g, root, chain, k); }
    }

    method Push(key: Key)
      requires Valid() && Next(key) && key !in memo && key !in onpath
      modifies `onpath, `stack, `chain
      ensures Valid()
      ensures onpath == old(onpath) + {key} && stack == old(stack) + [key.f] && chain == old(chain) + [key]
      ensures OnPathWith(key.active) == old(OnPathWith(key.active)) + {key.f}
    {
      NextChain(key);
      onpath := onpath + {key};
      stack := stack + [key.f];
      chain := chain + [key];
    }

    method Pop(key: Key, ghost below: set<Key>)
      requires Valid() && chain != [] && chain[|chain| - 1] == key
      requires key !in below && onpath == below + {key} && (forall k :: k in below <==> k in chain[..|chain| - 1])
      modifies `onpath, `stack, `chain
      ensures Valid()
      ensures onpath == below && chain == old(chain)[..|old(chain)| - 1] && stack == old(stack)[..|old(stack)| - 1]
    {
      ChainInit(g, root, chain);
      chain := chain[..|chain| - 1];
      onpath := onpath - {key};
      stack := stack[..|stack| - 1];
      assert onpath == below;
    }

    method Record(key: Key, best: (nat, seq<Entry>))
      requires Valid() && key !in memo && key !in onpath && InGraph(g, key) && CalleesBelow(g, memo, key, best.0)
      requires best == (0, []) || exists k :: Calls(g, key, k) && k in memo && memo[k] == best
      modifies `memo
      ensures Valid()
      ensures memo == old(memo)[key := (NodeOf(g, key).own + best.0, [EntryOf(g, key)] + best.1)]
    {
      Recorded(g, memo, key, best);
      memo := memo[key := (NodeOf(g, key).own + best.0, [EntryOf(g, key)] + best.1)];
    }

    /** Leave the key and record its entry. */
    method PopWith(key: Key, ghost below: set<Key>, best: (nat, seq<Entry>))
      requires Valid() && chain != [] && chain[|chain| - 1] == key && InGraph(g, key)
      requires key !in below && onpath == below + {key} && (forall k :: k in below <==> k in chain[..|chain| - 1])
      requires CalleesBelow(g, memo, key, best.0)
      requires best == (0, []) || exists k :: Calls(g, key, k) && k in memo && memo[k] == best
      modifies this
      ensures Valid()
      ensures onpath == below && chain == old(chain)[..|old(chain)| - 1] && stack == old(stack)[..|old(stack)| - 1]
      ensures memo == old(memo)[key := (NodeOf(g, key).own + best.0, [EntryOf(g, key)] + best.1)]
    {
      Pop(key, below);
      Record(key, best);
    }

    method Go(f: Func, active: set<Func>) returns (r: Result)
      requires Valid() && Next(Key(f, active))
      modifies this
      ensures r.Found? ==>
                && Valid()
                && chain == old(chain) && stack == old(stack) && onpath == old(onpath)
                && Extends(old(memo), memo)
                && Key(f, active) in memo && memo[Key(f, active)] == (r.depth, r.path)
      ensures r.Recursion? ==> !Acyclic(g, root) && CallCycle(g.edges, r.cycle)
      decreases Contexts(g) - active, g.edges.Keys - OnPathWith(active), 0
    {
      var key := Key(f, active);
      if key in memo {
        return Found(memo[key].0, memo[key].1);
      }
      if key in onpath {
        NextChain(key);
        var i := IndexOf(stack, f);
        RepeatAtEnd(chain, key);
        ChainCycle(g, root, chain + [key], stack + [f], i);
        assert stack[i..] + [f] == (stack + [f])[i..];
        return Recursion(stack[i..] + [f]);
      }
      ghost var before := OnPathWith(active);
      Push(key);
      assert g.edges.Keys - OnPathWith(active) < g.edges.Keys - before by {
        assert f in g.edges.Keys - before && f !in g.edges.Keys - OnPathWith(active);
      }
      var failed, best := Explore(key);
      if failed.Recursion? {
        return failed;
      }
      PopWith(key, old(onpath), best);
      assert chain == old(chain) && stack == old(stack);
      r := Found(memo[key].0, memo[key].1);
    }

    /** The loop over the callees of the key on top of the stack: the deepest of them, or (0, []). */
    method Explore(key: Key) returns (r: Result, best: (nat, seq<Entry>))
      requires Valid() && chain != [] && chain[|chain| - 1] == key
      modifies this
      ensures r.Found? ==>
                && Valid()
                && chain == old(chain) && stack == old(stack) && onpath == old(onpath)
                && Extends(old(memo), memo)
                && key.f in g.edges && CalleesBelow(g, memo, key, best.0)
                && (best == (0, []) || exists k :: Calls(g, key, k) && k in memo && memo[k] == best)
      ensures r.Recursion? ==> !Acyclic(g, root) && CallCycle(g.edges, r.cycle)
      decreases Contexts(g) - key.active, g.edges.Keys - OnPathWith(key.active), 1
    {
      var inner := Inner(g, key);
      best := (0, []);
      var todo := NodeOf(g, key).callees;
      while todo != {}
        invariant Valid()
        invariant todo <= NodeOf(g, key).callees
        invariant chain == old(chain) && stack == old(stack) && onpath == old(onpath)
        invariant Extends(old(memo), memo)
        invariant forall h :: h in NodeOf(g, key).callees - todo ==> Key(h, inner) in memo && memo[Key(h, inner)].0 <= best.0
        invariant best == (0, []) || exists k :: Calls(g, key, k) && k in memo && memo[k] == best
        decreases todo
      {
        var h :| h in todo;
        assert Calls(g, key, Key(h, inner));
        CalleeInGraph(g, key, Key(h, inner));
        InnerGrows(g, key);
        var sub := Go(h, inner);
        if sub.Recursion? {
          return sub, best;
        }
        if sub.depth > best.0 {
          best := (sub.depth, sub.path);
        }
        todo := todo - {h};
      }
      r := Found(0, []);
    }
  }

  ghost predicate Extends(m: map<Key, (nat, seq<Entry>)>, n: map<Key, (nat, seq<Entry>)>) {
    forall k :: k in m ==> k in n && n[k] == m[k]
  }

  lemma InnerGrows(g: Graph, key: Key)
    ensures Inner(g, key) == key.active || Contexts(g) - Inner(g, key) < Contexts(g) - key.active
  {
    if Inner(g, key) != key.active {
      assert key.f in Contexts(g) - key.active && key.f !in Contexts(g) - Inner(g, key);
    }
  }

  lemma RepeatAtEnd(c: seq<Key>, k: Key)
    requires k in c
    ensures Repeats(c + [k])
  {
    var i :| 0 <= i < |c| && c[i] == k;
    assert (c + [k])[i] == (c + [k])[|c|];
  }

  /** `stack.index(f)`. */
  method IndexOf(stack: seq<Func>, f: Func) returns (i: nat)
    requires f in stack
    ensures i < |stack| && stack[i] == f && f !in stack[..i]
  {
    i := 0;
    while stack[i] != f
      invariant i < |stack| && f !in stack[..i] && f in stack[i..]
      decreases |stack| - i
    {
      assert stack[i..] == [stack[i]] + stack[i + 1..];
      i := i + 1;
    }
  }

  // ----- What the answer means for stacks of functions

  /** A cut of f whose context is among the functions below it on the stack. */
  predicate CutActive(g: Graph, below: seq<Func>, f: Func, c: Cut) {
    c in g.cuts && c.func == f && c.ctx in below
  }

  ghost predicate Severed(g: Graph, below: seq<Func>, f: Func, h: Func) {
    exists c :: CutActive(g, below, f, c) && (c.callees.AllCallees? || h in c.callees.those)
  }

  ghost predicate Frameless(g: Graph, below: seq<Func>, f: Func) {
    exists c :: CutActive(g, below, f, c) && c.callees.AllCallees?
  }

  ghost predicate Marked(g: Graph, below: seq<Func>, f: Func) {
    exists c :: CutActive(g, below, f, c)
  }

  ghost predicate MayCall(g: Graph, below: seq<Func>, f: Func, h: Func) {
    f in g.edges && h in g.edges[f] && !Severed(g, below, f, h)
  }

  ghost function FrameIn(g: Graph, below: seq<Func>, f: Func): nat {
    if Frameless(g, below, f) || f !in g.frame then 0 else g.frame[f]
  }

  /** A stack of functions, oldest first, in which each function may call the next from where it is. */
  ghost predicate Stack(g: Graph, root: Func, fs: seq<Func>)
    decreases |fs|
  {
    var n := |fs|;
    if n <= 1 then fs == [root] && root in g.edges
    else Stack(g, root, fs[..n - 1]) && MayCall(g, fs[..n - 2], fs[n - 2], fs[n - 1])
  }

  ghost function StackBytes(g: Graph, fs: seq<Func>): nat
    decreases |fs|
  {
    var n := |fs|;
    if n == 0 then 0 else StackBytes(g, fs[..n - 1]) + FrameIn(g, fs[..n - 1], fs[n - 1])
  }

  ghost function Report(g: Graph, fs: seq<Func>): (path: seq<Entry>)
    decreases |fs|
  {
    var n := |fs|;
    if n == 0 then []
    else Report(g, fs[..n - 1]) + [Entry(FrameIn(g, fs[..n - 1], fs[n - 1]), fs[n - 1], Marked(g, fs[..n - 1], fs[n - 1]))]
  }

  /** The contexts of the cuts that lie on the stack. */
  function ActiveIn(g: Graph, below: seq<Func>): set<Func> {
    set c | c in g.cuts && c.ctx in below :: c.ctx
  }

  /** No stack of functions is deeper, and the path reports one that deep. */
  ghost predicate DeepestStack(g: Graph, root: Func, depth: nat, path: seq<Entry>) {
    && (forall fs :: Stack(g, root, fs) ==> StackBytes(g, fs) <= depth)
    && (exists fs :: Stack(g, root, fs) && StackBytes(g, fs) == depth && Report(g, fs) == path)
  }

  /** A function comes back on some stack with the same cut contexts below it. */
  ghost predicate Recurs(g: Graph, root: Func) {
    exists fs, i, j :: Stack(g, root, fs) && Returns(g, fs, i, j)
  }

  ghost predicate Returns(g: Graph, fs: seq<Func>, i: int, j: int) {
    0 <= i < j < |fs| && fs[i] == fs[j] && ActiveIn(g, fs[..i]) == ActiveIn(g, fs[..j])
  }

  // ----- Stacks of functions are call chains of keys

  predicate CutAt(g: Graph, k: Key, i: int)
    requires 0 <= i < |g.cuts|
  {
    g.cuts[i].func == k.f && g.cuts[i].ctx in k.active
  }

  predicate SeversAt(g: Graph, k: Key, i: int, h: Func)
    requires 0 <= i < |g.cuts|
  {
    CutAt(g, k, i) && (g.cuts[i].callees.AllCallees? || h in g.cuts[i].callees.those)
  }

  predicate EmptiesAt(g: Graph, k: Key, i: int)
    requires 0 <= i < |g.cuts|
  {
    CutAt(g, k, i) && g.cuts[i].callees.AllCallees?
  }

  lemma {:induction false} AppliedLaw(g: Graph, k: Key, n: nat, h: Func)
    requires Closed(g) && k.f in g.edges && n <= |g.cuts|
    ensures h in Applied(g, k, n).callees <==> h in g.edges[k.f] && !exists i :: 0 <= i < n && SeversAt(g, k, i, h)
    ensures Applied(g, k, n).own == if exists i :: 0 <= i < n && EmptiesAt(g, k, i) then 0 else g.frame[k.f]
    ensures Applied(g, k, n).cut <==> exists i :: 0 <= i < n && CutAt(g, k, i)
  {
    if n > 0 {
      AppliedLaw(g, k, n - 1, h);
      assert CutAt(g, k, n - 1) ==> EmptiesAt(g, k, n - 1) || g.cuts[n - 1].callees.Only?;
      assert SeversAt(g, k, n - 1, h) ==> CutAt(g, k, n - 1);
    }
  }

  lemma CutsAgree(g: Graph, below: seq<Func>, f: Func, h: Func)
    ensures var k := Key(f, ActiveIn(g, below));
            && (Severed(g, below, f, h) <==> exists i :: 0 <= i < |g.cuts| && SeversAt(g, k, i, h))
            && (Frameless(g, below, f) <==> exists i :: 0 <= i < |g.cuts| && EmptiesAt(g, k, i))
            && (Marked(g, below, f) <==> exists i :: 0 <= i < |g.cuts| && CutAt(g, k, i))
  {
    var k := Key(f, ActiveIn(g, below));
    forall i | 0 <= i < |g.cuts| ensures CutAt(g, k, i) <==> CutActive(g, below, f, g.cuts[i]) {}
    forall c | CutActive(g, below, f, c)
      ensures exists i :: 0 <= i < |g.cuts| && CutAt(g, k, i)
      ensures c.callees.AllCallees? ==> exists i :: 0 <= i < |g.cuts| && EmptiesAt(g, k, i)
      ensures c.callees.AllCallees? || h in c.callees.those ==> exists i :: 0 <= i < |g.cuts| && SeversAt(g, k, i, h)
    {
      var i :| 0 <= i < |g.cuts| && g.cuts[i] == c;
      assert CutAt(g, k, i);
      assert c.callees.AllCallees? ==> EmptiesAt(g, k, i);
      assert c.callees.AllCallees? || h in c.callees.those ==> SeversAt(g, k, i, h);
    }
  }

  /** The node of a key is what its function may do on a stack with those contexts. */
  lemma NodeLaw(g: Graph, below: seq<Func>, f: Func, h: Func)
    requires Closed(g) && f in g.edges
    ensures var k := Key(f, ActiveIn(g, below));
            && (h in NodeOf(g, k).callees <==> MayCall(g, below, f, h))
            && EntryOf(g, k) == Entry(FrameIn(g, below, f), f, Marked(g, below, f))
  {
    AppliedLaw(g, Key(f, ActiveIn(g, below)), |g.cuts|, h);
    CutsAgree(g, below, f, h);
  }

  function KeysOf(g: Graph, fs: seq<Func>): (c: seq<Key>)
    ensures |c| == |fs|
    decreases |fs|
  {
    var n := |fs|;
    if n == 0 then [] else KeysOf(g, fs[..n - 1]) + [Key(fs[n - 1], ActiveIn(g, fs[..n - 1]))]
  }

  lemma {:induction false} KeyAt(g: Graph, fs: seq<Func>, i: int)
    requires 0 <= i < |fs|
    ensures KeysOf(g, fs)[i] == Key(fs[i], ActiveIn(g, fs[..i]))
    decreases |fs|
  {
    var n := |fs|;
    if i < n - 1 {
      KeyAt(g, fs[..n - 1], i);
      assert fs[..n - 1][..i] == fs[..i];
    }
  }

  /** Pushing a function pushes its context. */
  lemma InnerIsActive(g: Graph, below: seq<Func>, f: Func)
    ensures Inner(g, Key(f, ActiveIn(g, below))) == ActiveIn(g, below + [f])
  {
  }
  lemma {:induction false} WeightSnoc(g: Graph, c: seq<Key>, k: Key)
    requires Closed(g) && k.f in g.edges && forall i :: 0 <= i < |c| ==> c[i].f in g.edges
    ensures Weight(g, c + [k]) == Weight(g, c) + NodeOf(g, k).own
  {
    if c == [] {
      assert (c + [k])[1..] == [];
    } else {
      assert (c + [k])[1..] == c[1..] + [k];
      WeightSnoc(g, c[1..], k);
    }
  }

  /** A stack of functions, seen through its keys, is a chain of the same depth and report. */
  lemma {:induction false} StackIsChain(g: Graph, root: Func, fs: seq<Func>)
    requires Closed(g) && Stack(g, root, fs)
    ensures Chain(g, Key(root, {}), KeysOf(g, fs))
    ensures Weight(g, KeysOf(g, fs)) == StackBytes(g, fs)
    ensures Describes(g, KeysOf(g, fs), Report(g, fs))
    decreases |fs|
  {
    var n := |fs|;
    var below, f := fs[..n - 1], fs[n - 1];
    var k := Key(f, ActiveIn(g, below));
    if n == 1 {
      assert below == [] && k == Key(root, {});
      assert KeysOf(g, fs) == [k];
      ChainSingle(g, k);
      NodeLaw(g, below, f, f);
      assert Report(g, fs) == [EntryOf(g, k)];
    } else {
      StackIsChain(g, root, below);
      var c := KeysOf(g, below);
      StackStep(g, fs);
      KeyAt(g, below, n - 2);
      assert below[..n - 2] == fs[..n - 2];
      ChainSnoc(g, Key(root, {}), c, k);
      WeightSnoc(g, c, k);
      NodeLaw(g, below, f, f);
    }
  }

  /** The last call of a stack is a call of its last two keys. */
  lemma StackStep(g: Graph, fs: seq<Func>)
    requires Closed(g) && |fs| >= 2 && fs[|fs| - 2] in g.edges
    requires MayCall(g, fs[..|fs| - 2], fs[|fs| - 2], fs[|fs| - 1])
    ensures var n := |fs|;
            var k, k' := Key(fs[n - 2], ActiveIn(g, fs[..n - 2])), Key(fs[n - 1], ActiveIn(g, fs[..n - 1]));
            InGraph(g, k') && Calls(g, k, k')
  {
    var n := |fs|;
    NodeLaw(g, fs[..n - 2], fs[n - 2], fs[n - 1]);
    InnerIsActive(g, fs[..n - 2], fs[n - 2]);
    assert fs[..n - 2] + [fs[n - 2]] == fs[..n - 1];
  }

  function Names(c: seq<Key>): (fs: seq<Func>)
    ensures |fs| == |c| && forall i :: 0 <= i < |c| ==> fs[i] == c[i].f
  {
    seq(|c|, i requires 0 <= i < |c| => c[i].f)
  }

  /** And every chain from the root is such a stack: its keys carry exactly the contexts below them. */
  lemma {:induction false} ChainIsStack(g: Graph, root: Func, c: seq<Key>)
    requires Closed(g) && Chain(g, Key(root, {}), c)
    ensures Stack(g, root, Names(c)) && KeysOf(g, Names(c)) == c
    decreases |c|
  {
    var n, fs := |c|, Names(c);
    if n == 1 {
      assert fs == [root];
      assert ActiveIn(g, fs[..0]) == {};
      assert KeysOf(g, fs[..0]) == [];
    } else {
      ChainInit(g, Key(root, {}), c);
      ChainIsStack(g, root, c[..n - 1]);
      assert Names(c[..n - 1]) == fs[..n - 1];
      assert Calls(g, c[n - 2], c[n - 1]);
      KeyAt(g, fs[..n - 1], n - 2);
      assert fs[..n - 1][..n - 2] == fs[..n - 2];
      NodeLaw(g, fs[..n - 2], fs[n - 2], fs[n - 1]);
      InnerIsActive(g, fs[..n - 2], fs[n - 2]);
      assert fs[..n - 2] + [fs[n - 2]] == fs[..n - 1];
      assert c == c[..n - 1] + [c[n - 1]];
    }
  }

  lemma RecursIffRepeats(g: Graph, root: Func)
    requires Closed(g) && root in g.edges
    ensures Recurs(g, root) <==> !Acyclic(g, Key(root, {}))
  {
    if Recurs(g, root) {
      var fs, i, j :| Stack(g, root, fs) && Returns(g, fs, i, j);
      StackIsChain(g, root, fs);
      KeyAt(g, fs, i);
      KeyAt(g, fs, j);
      assert Repeats(KeysOf(g, fs));
    }
    if !Acyclic(g, Key(root, {})) {
      var c :| Chain(g, Key(root, {}), c) && Repeats(c);
      var i, j :| 0 <= i < j < |c| && c[i] == c[j];
      ChainIsStack(g, root, c);
      KeyAt(g, Names(c), i);
      KeyAt(g, Names(c), j);
      assert Returns(g, Names(c), i, j);
    }
  }

  lemma DescribedOnce(g: Graph, c: seq<Key>, p: seq<Entry>, q: seq<Entry>)
    requires Closed(g) && (forall i :: 0 <= i < |c| ==> c[i].f in g.edges) && Describes(g, c, p) && Describes(g, c, q)
    ensures p == q
  {
  }

  lemma DeepestIsStack(g: Graph, root: Func, depth: nat, path: seq<Entry>)
    requires Closed(g) && root in g.edges && Deepest(g, Key(root, {}), depth, path)
    ensures DeepestStack(g, root, depth, path)
  {
    forall fs | Stack(g, root, fs) ensures StackBytes(g, fs) <= depth { StackIsChain(g, root, fs); }
    var c :| Chain(g, Key(root, {}), c) && Weight(g, c) == depth && Describes(g, c, path);
    ChainIsStack(g, root, c);
    StackIsChain(g, root, Names(c));
    DescribedOnce(g, c, path, Report(g, Names(c)));
  }

  /** The depth does not depend on the order in which callees are visited. */
  lemma DepthUnique(g: Graph, root: Func, d: nat, p: seq<Entry>, d': nat, p': seq<Entry>)
    requires DeepestStack(g, root, d, p) && DeepestStack(g, root, d', p')
    ensures d == d'
  {
    var fs :| Stack(g, root, fs) && StackBytes(g, fs) == d && Report(g, fs) == p;
    var fs' :| Stack(g, root, fs') && StackBytes(g, fs') == d' && Report(g, fs') == p';
  }

  /** `deepest(root)`: terminates, and returns a depth exactly when no function can come back on a
      stack with the same cut contexts below it; the depth is then the largest of all stacks of
      functions that respect the cuts, and the path reports one that deep. Otherwise it names
      functions that do call each other in a circle. */
  method DeepestFrom(g: Graph, root: Func) returns (r: Result)
    requires Closed(g) && root in g.edges
    ensures r.Found? <==> !Recurs(g, root)
    ensures r.Found? ==> DeepestStack(g, root, r.depth, r.path)
    ensures r.Recursion? ==> CallCycle(g.edges, r.cycle)
  {
    var search := new Search(g, Key(root, {}));
    r := search.Go(root, {});
    RecursIffRepeats(g, root);
    if r.Found? { DeepestIsStack(g, root, r.depth, r.path); }
  }

  // ----- Reachability

  predicate CallsDirectly(edges: map<Func, set<Func>>, f: Func, h: Func) { f in edges && h in edges[f] }

  ghost predicate Path(edges: map<Func, set<Func>>, p: seq<Func>) {
    && |p| > 0 && p[0] in edges
    && forall i :: 0 < i < |p| ==> CallsDirectly(edges, p[i - 1], p[i])
  }

  ghost predicate Reaches(edges: map<Func, set<Func>>, root: Func, f: Func) {
    exists p :: Path(edges, p) && p[0] == root && p[|p| - 1] == f
  }

  lemma ReachesStep(edges: map<Func, set<Func>>, root: Func, f: Func, h: Func)
    requires Reaches(edges, root, f) && f in edges && h in edges[f]
    ensures Reaches(edges, root, h)
  {
    var p :| Path(edges, p) && p[0] == root && p[|p| - 1] == f;
    assert Path(edges, p + [h]);
  }

  lemma {:induction false} PathStays(edges: map<Func, set<Func>>, s: set<Func>, p: seq<Func>, n: nat)
    requires Path(edges, p) && n < |p| && p[0] in s
    requires forall f, h :: f in s && f in edges && h in edges[f] ==> h in s
    ensures p[n] in s
  {
    if n > 0 {
      PathStays(edges, s, p, n - 1);
      assert CallsDirectly(edges, p[n - 1], p[n]);
    }
  }

  /** A set in some order. */
  method Listed(s: set<Func>) returns (l: seq<Func>)
    ensures forall f :: f in l <==> f in s
  {
    l := [];
    var rest := s;
    while rest != {}
      invariant rest <= s && forall f :: f in l <==> f in s - rest
      decreases rest
    {
      var f :| f in rest;
      l, rest := l + [f], rest - {f};
    }
  }

  /** `reachable`: exactly the functions some path of calls leads to. */
  method Reachable(root: Func, edges: map<Func, set<Func>>) returns (seen: set<Func>)
    requires root in edges && forall f, h :: f in edges && h in edges[f] ==> h in edges
    ensures forall f :: f in seen <==> Reaches(edges, root, f)
  {
    seen := {};
    var todo := [root];
    assert Path(edges, [root]);
    while todo != []
      invariant seen <= edges.Keys
      invariant forall f :: f in seen || f in todo ==> f in edges && Reaches(edges, root, f)
      invariant forall f, h :: f in seen && h in edges[f] ==> h in seen || h in todo
      invariant root in seen || root in todo
      decreases edges.Keys - seen, |todo|
    {
      var f := todo[|todo| - 1];
      var rest := todo[..|todo| - 1];
      assert todo == rest + [f];
      todo := rest;
      if f !in seen {
        forall h | h in edges[f] ensures Reaches(edges, root, h) { ReachesStep(edges, root, f, h); }
        seen := seen + {f};
        var more := Listed(edges[f]);
        todo := todo + more;
      }
    }
    forall f | Reaches(edges, root, f) ensures f in seen {
      var p :| Path(edges, p) && p[0] == root && p[|p| - 1] == f;
      PathStays(edges, seen, p, |p| - 1);
    }
  }
}
