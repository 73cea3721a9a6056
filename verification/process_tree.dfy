/** The bounded walk over the engine's process tree. */
module ProcessTree {
  import opened SessionState

  const MAX_FOUND := 64
  const MAX_TASKS := 256
  const MAX_CHILDREN := 256
  const MAX_PID := 0x7fff_ffff

  /** The words of one task's `children` file; None is a word that is not one to ten ASCII digits. */
  type Words = seq<Option<nat>>

  /** For each process, the `children` files of its tasks in directory order; a process may be gone. */
  type Proc = map<nat, seq<Words>>

  function TasksOf(proc: Proc, pid: nat): seq<Words> {
    if pid in proc then proc[pid] else []
  }

  function Numbers(words: Words): seq<nat> {
    if words == [] then []
    else Numbers(words[..|words| - 1]) + if words[|words| - 1].Some? then [words[|words| - 1].value] else []
  }

  function AllNumbers(tasks: seq<Words>): seq<nat> {
    if tasks == [] then [] else AllNumbers(tasks[..|tasks| - 1]) + Numbers(tasks[|tasks| - 1])
  }

  function First<T>(s: seq<T>, n: nat): (r: seq<T>)
    ensures r <= s && |r| == if |s| <= n then |s| else n
  {
    if |s| <= n then s else s[..n]
  }

  /** The children the walk reads for one process: the first numbers of its first tasks. */
  function Listed(proc: Proc, pid: nat): (r: seq<nat>)
    ensures |r| <= MAX_CHILDREN
  {
    First(AllNumbers(First(TasksOf(proc, pid), MAX_TASKS)), MAX_CHILDREN)
  }

  /** What a process lists as its children. */
  type Kids = nat -> seq<nat>

  function Listing(proc: Proc): Kids {
    pid => Listed(proc, pid)
  }

  /** A word counts where it stands: after the numbers of the words before it. */
  lemma {:induction false} NumberStands(words: Words, k: nat)
    requires k < |words| && words[k].Some?
    ensures var at := |Numbers(words[..k])|; at < |Numbers(words)| && Numbers(words)[at] == words[k].value
  {
    var front := words[..|words| - 1];
    if k == |front| {
      assert words[..k] == front;
    } else {
      NumberStands(front, k);
      assert front[..k] == words[..k];
    }
  }

  lemma {:induction false} NumbersExactly(words: Words, x: nat)
    ensures x in Numbers(words) <==> exists k :: 0 <= k < |words| && words[k] == Some(x)
  {
    if words != [] { NumbersExactly(words[..|words| - 1], x); }
  }

  /** So does a task: after the numbers of the tasks before it. */
  lemma {:induction false} TaskStands(tasks: seq<Words>, t: nat)
    requires t < |tasks|
    ensures AllNumbers(tasks[..t]) + Numbers(tasks[t]) <= AllNumbers(tasks)
  {
    var front := tasks[..|tasks| - 1];
    if t == |front| {
      assert tasks[..t] == front;
    } else {
      TaskStands(front, t);
      assert front[..t] == tasks[..t];
    }
  }

  /** Word `k` of task `t` is the number `x`. */
  predicate Mentions(tasks: seq<Words>, t: nat, k: nat, x: nat) {
    t < |tasks| && k < |tasks[t]| && tasks[t][k] == Some(x)
  }

  lemma {:induction false} AllNumbersExactly(tasks: seq<Words>, x: nat)
    ensures x in AllNumbers(tasks) <==> exists t: nat, k: nat :: Mentions(tasks, t, k, x)
  {
    if tasks != [] {
      var front, last := tasks[..|tasks| - 1], |tasks| - 1;
      AllNumbersExactly(front, x);
      NumbersExactly(tasks[last], x);
      if x in AllNumbers(front) {
        var t: nat, k: nat :| Mentions(front, t, k, x);
        assert Mentions(tasks, t, k, x);
      } else if x in Numbers(tasks[last]) {
        var k :| 0 <= k < |tasks[last]| && tasks[last][k] == Some(x);
        assert Mentions(tasks, last, k, x);
      }
      forall t: nat, k: nat | Mentions(tasks, t, k, x) ensures x in AllNumbers(tasks) {
        if t < last { assert Mentions(front, t, k, x); }
      }
    }
  }

  /** Only numbers that one of the first 256 tasks mentions are listed, and all of them while they are at most 256. */
  lemma ListedExactly(proc: Proc, pid: nat, x: nat)
    ensures var tasks := First(TasksOf(proc, pid), MAX_TASKS);
      && (x in Listed(proc, pid) ==> exists t: nat, k: nat :: Mentions(tasks, t, k, x))
      && (|AllNumbers(tasks)| <= MAX_CHILDREN ==>
            (x in Listed(proc, pid) <==> exists t: nat, k: nat :: Mentions(tasks, t, k, x)))
  {
    AllNumbersExactly(First(TasksOf(proc, pid), MAX_TASKS), x);
  }

  // ---- reading one process ----

  method ReadChildren(tasks: seq<Words>) returns (children: seq<nat>)
    ensures children == First(AllNumbers(First(tasks, MAX_TASKS)), MAX_CHILDREN)
  {
    children := [];
    ghost var used := First(tasks, MAX_TASKS);
    for index := 0 to |tasks|
      invariant index <= MAX_TASKS
      invariant children == First(AllNumbers(used[..index]), MAX_CHILDREN)
    {
      if index >= MAX_TASKS || |children| >= MAX_CHILDREN {
        FullStaysFull(used, index, MAX_CHILDREN);
        assert used[..|used|] == used;
        return;
      }
      children := ReadTask(children, tasks[index]);
      assert used[..index + 1][..index] == used[..index];
    }
    assert used[..|used|] == used;
  }

  method ReadTask(before: seq<nat>, words: Words) returns (children: seq<nat>)
    requires |before| < MAX_CHILDREN
    ensures children == First(before + Numbers(words), MAX_CHILDREN)
  {
    children := before;
    for k := 0 to |words|
      invariant children == First(before + Numbers(words[..k]), MAX_CHILDREN)
    {
      if |children| >= MAX_CHILDREN {
        NumbersGrow(words, k);
        return;
      }
      assert words[..k + 1][..k] == words[..k];
      if words[k].Some? {
        children := children + [words[k].value];
      }
    }
    assert words[..|words|] == words;
  }

  lemma {:induction false} NumbersGrow(words: Words, k: nat)
    requires k <= |words|
    ensures Numbers(words[..k]) <= Numbers(words)
  {
    if k == |words| {
      assert words[..k] == words;
    } else {
      NumbersGrow(words[..|words| - 1], k);
      assert words[..|words| - 1][..k] == words[..k];
    }
  }

  lemma {:induction false} FullStaysFull(tasks: seq<Words>, k: nat, n: nat)
    requires k <= |tasks|
    ensures AllNumbers(tasks[..k]) <= AllNumbers(tasks)
    ensures |AllNumbers(tasks[..k])| >= n ==> First(AllNumbers(tasks), n) == First(AllNumbers(tasks[..k]), n)
  {
    if k == |tasks| {
      assert tasks[..k] == tasks;
    } else {
      FullStaysFull(tasks[..|tasks| - 1], k, n);
      assert tasks[..|tasks| - 1][..k] == tasks[..k];
    }
  }

  predicate PidInRange(n: nat) { 1 <= n <= MAX_PID }

  predicate Child(kids: Kids, parent: nat, child: nat) {
    child in kids(parent) && PidInRange(child)
  }

  predicate IsPath(kids: Kids, path: seq<nat>, from: nat, to: nat) {
    && path != [] && path[0] == from && path[|path| - 1] == to
    && forall k :: 0 <= k < |path| - 1 ==> Child(kids, path[k], path[k + 1])
  }

  ghost predicate Reachable(kids: Kids, root: nat, pid: nat) {
    exists path :: IsPath(kids, path, root, pid)
  }

  lemma RootReachable(kids: Kids, root: nat)
    ensures Reachable(kids, root, root)
  {
    assert IsPath(kids, [root], root, root);
  }

  lemma ChildReachable(kids: Kids, root: nat, parent: nat, child: nat)
    requires Reachable(kids, root, parent) && Child(kids, parent, child)
    ensures Reachable(kids, root, child)
  {
    var path :| IsPath(kids, path, root, parent);
    assert IsPath(kids, path + [child], root, child);
  }

  predicate Distinct(s: seq<nat>) {
    forall i, j :: 0 <= i < j < |s| ==> s[i] != s[j]
  }

  function Members(s: seq<nat>): set<nat> {
    set x | x in s
  }

  lemma {:induction false} DistinctSize(s: seq<nat>)
    requires Distinct(s)
    ensures |Members(s)| == |s|
  {
    if s != [] {
      var t := s[..|s| - 1];
      DistinctSize(t);
      assert s == t + [s[|s| - 1]];
      assert Members(s) == Members(t) + {s[|s| - 1]};
    }
  }

  // ---- the tree, and what the walk knows about it ----

  /** Below `root` no process has two parents, is listed twice or is out of range, and nothing lists the root. */
  ghost predicate Tree(kids: Kids, root: nat) {
    && (forall p :: Reachable(kids, root, p) ==> Distinct(kids(p)) && root !in kids(p))
    && (forall p, c :: Reachable(kids, root, p) && c in kids(p) ==> PidInRange(c))
    && (forall p, q, c ::
          (Reachable(kids, root, p) && Reachable(kids, root, q) && c in kids(p) && c in kids(q))
          ==> p == q)
  }

  predicate HasParent(kids: Kids, found: seq<nat>, x: nat) {
    exists p :: p in found && x in kids(p)
  }

  predicate Apart(s: seq<nat>, t: seq<nat>) {
    forall x :: x in s ==> x !in t
  }

  predicate Parented(kids: Kids, root: nat, found: seq<nat>, s: seq<nat>) {
    forall x :: x in s ==> x == root || HasParent(kids, found, x)
  }

  /** Nothing is noted twice, and whatever was noted got there through a visited parent. */
  predicate Accounted(kids: Kids, root: nat, found: seq<nat>, pending: seq<nat>) {
    && Distinct(found) && Distinct(pending) && Apart(found, pending)
    && Parented(kids, root, found, found) && Parented(kids, root, found, pending)
  }

  /** Every child of a visited process was noted. */
  predicate Closed(kids: Kids, found: seq<nat>, pending: seq<nat>) {
    forall p, c :: p in found && c in kids(p) ==> c in found || c in pending
  }

  function Pushed(children: seq<nat>): seq<nat> {
    if children == [] then []
    else Pushed(children[..|children| - 1]) +
         if PidInRange(children[|children| - 1]) then [children[|children| - 1]] else []
  }

  lemma {:induction false} PushedInRange(children: seq<nat>)
    ensures |Pushed(children)| <= |children|
    ensures forall c :: c in Pushed(children) ==> c in children && PidInRange(c)
    ensures (forall c :: c in children ==> PidInRange(c)) ==> Pushed(children) == children
  {
    if children != [] {
      PushedInRange(children[..|children| - 1]);
      assert children == children[..|children| - 1] + [children[|children| - 1]];
    }
  }

  method PushInRange(rest: seq<nat>, batch: seq<nat>) returns (pending: seq<nat>)
    ensures pending == rest + Pushed(batch)
  {
    pending := rest;
    for k := 0 to |batch|
      invariant pending == rest + Pushed(batch[..k])
    {
      assert batch[..k + 1][..k] == batch[..k];
      if PidInRange(batch[k]) { pending := pending + [batch[k]]; }
    }
    assert batch[..|batch|] == batch;
  }

  ghost predicate AllReachable(kids: Kids, root: nat, s: seq<nat>) {
    forall x :: x in s ==> Reachable(kids, root, x)
  }

  /** One visit: `pid` moves from the top of the stack to the visited and a batch of its children is pushed. */
  predicate Visit(kids: Kids, found: seq<nat>, pending: seq<nat>, found': seq<nat>, pending': seq<nat>, batch: seq<nat>)
  {
    && pending != []
    && batch <= kids(pending[|pending| - 1])
    && found' == found + [pending[|pending| - 1]]
    && pending' == pending[..|pending| - 1] + Pushed(batch)
  }

  lemma NotedIsNoKid(kids: Kids, root: nat, found: seq<nat>, pending: seq<nat>, pid: nat, c: nat)
    requires Tree(kids, root) && AllReachable(kids, root, found) && Reachable(kids, root, pid)
    requires Accounted(kids, root, found, pending) && pid !in found && (c in found || c in pending)
    ensures c !in kids(pid)
  {
    if c != root {
      var p :| p in found && c in kids(p);
    }
  }

  lemma DistinctAppend(s: seq<nat>, t: seq<nat>)
    requires Distinct(s) && Distinct(t) && Apart(s, t)
    ensures Distinct(s + t)
  {
    assert forall j :: 0 <= j < |t| ==> t[j] in t && t[j] !in s;
  }

  lemma MovesAreDistinct(found: seq<nat>, rest: seq<nat>, pid: nat, batch: seq<nat>)
    requires Distinct(found) && Distinct(rest + [pid]) && Apart(found, rest + [pid])
    requires Distinct(batch) && Apart(batch, found) && Apart(batch, rest + [pid])
    ensures Distinct(found + [pid]) && Distinct(rest + batch) && Apart(found + [pid], rest + batch)
  {
    var pending := rest + [pid];
    assert pending[|rest|] == pid && forall k :: 0 <= k < |rest| ==> pending[k] == rest[k];
    assert pid in pending && forall x :: x in rest ==> x in pending;
    DistinctAppend(found, [pid]);
    DistinctAppend(rest, batch);
  }

  lemma VisitKeepsAccount(kids: Kids, root: nat, found: seq<nat>, pending: seq<nat>, found': seq<nat>,
                          pending': seq<nat>, batch: seq<nat>)
    requires Visit(kids, found, pending, found', pending', batch)
    requires Tree(kids, root) && AllReachable(kids, root, found) && AllReachable(kids, root, pending)
    requires Accounted(kids, root, found, pending)
    ensures Pushed(batch) == batch && Accounted(kids, root, found', pending')
  {
    var pid, rest := pending[|pending| - 1], pending[..|pending| - 1];
    assert pending == rest + [pid] && pid in pending;
    InOrder(kids, root, pid, batch);
    NoneNoted(kids, root, found, pending, pid, batch);
    MovesAreDistinct(found, rest, pid, batch);
    ParentsStay(kids, root, found, pending, found', pending', batch);
  }

  lemma NoneNoted(kids: Kids, root: nat, found: seq<nat>, pending: seq<nat>, pid: nat, batch: seq<nat>)
    requires Tree(kids, root) && AllReachable(kids, root, found) && Reachable(kids, root, pid)
    requires Accounted(kids, root, found, pending) && pid !in found && forall c :: c in batch ==> c in kids(pid)
    ensures Apart(batch, found) && Apart(batch, pending)
  {
    forall c | c in found || c in pending ensures c !in kids(pid) {
      NotedIsNoKid(kids, root, found, pending, pid, c);
    }
  }

  lemma VisitKeepsClosed(kids: Kids, found: seq<nat>, pending: seq<nat>, found': seq<nat>, pending': seq<nat>,
                         batch: seq<nat>)
    requires Visit(kids, found, pending, found', pending', batch) && Pushed(batch) == batch
    requires Closed(kids, found, pending) && batch == kids(pending[|pending| - 1])
    ensures Closed(kids, found', pending')
  {
  }

  lemma InOrder(kids: Kids, root: nat, pid: nat, batch: seq<nat>)
    requires Tree(kids, root) && Reachable(kids, root, pid) && batch <= kids(pid)
    ensures Pushed(batch) == batch && Distinct(batch) && forall c :: c in batch ==> c in kids(pid)
  {
    PushedInRange(batch);
  }

  lemma ParentsStay(kids: Kids, root: nat, found: seq<nat>, pending: seq<nat>, found': seq<nat>, pending': seq<nat>,
                    batch: seq<nat>)
    requires Visit(kids, found, pending, found', pending', batch) && Pushed(batch) == batch
    requires Accounted(kids, root, found, pending)
    ensures Parented(kids, root, found', found') && Parented(kids, root, found', pending')
  {
    var pid := pending[|pending| - 1];
    assert pid in found';
    forall x | HasParent(kids, found, x) || x in batch ensures HasParent(kids, found', x) {
      if x in batch {
        assert x in kids(pid);
      } else {
        var p :| p in found && x in kids(p);
        assert p in found';
      }
    }
  }

  lemma VisitKeepsReachable(kids: Kids, root: nat, found: seq<nat>, pending: seq<nat>, found': seq<nat>,
                            pending': seq<nat>, batch: seq<nat>)
    requires Visit(kids, found, pending, found', pending', batch)
    requires AllReachable(kids, root, found) && AllReachable(kids, root, pending)
    ensures AllReachable(kids, root, found') && AllReachable(kids, root, pending')
  {
    var pid := pending[|pending| - 1];
    assert pid in pending;
    PushedInRange(batch);
    forall x | x in Pushed(batch) ensures Reachable(kids, root, x) {
      ChildReachable(kids, root, pid, x);
    }
  }

  lemma {:induction false} ClosedHasEveryPath(kids: Kids, root: nat, found: seq<nat>, path: seq<nat>, to: nat)
    requires Closed(kids, found, []) && root in found && IsPath(kids, path, root, to)
    ensures to in found
    decreases |path|
  {
    if |path| > 1 {
      var shorter := path[..|path| - 1];
      assert IsPath(kids, shorter, root, path[|path| - 2]);
      ClosedHasEveryPath(kids, root, found, shorter, path[|path| - 2]);
      assert Child(kids, path[|path| - 2], path[|path| - 1]);
      assert found + [] == found;
    }
  }

  ghost predicate Exact(kids: Kids, root: nat, found: seq<nat>) {
    forall x :: x in found <==> Reachable(kids, root, x)
  }

  lemma EmptyPendingIsExact(kids: Kids, root: nat, found: seq<nat>)
    requires Closed(kids, found, []) && root in found && AllReachable(kids, root, found)
    ensures Exact(kids, root, found)
  {
    forall x | Reachable(kids, root, x) ensures x in found {
      var path :| IsPath(kids, path, root, x);
      ClosedHasEveryPath(kids, root, found, path, x);
    }
  }

  ghost predicate Covers(kids: Kids, root: nat, nodes: set<nat>) {
    forall x :: Reachable(kids, root, x) ==> x in nodes
  }

  /** No more than `n` processes can be reached. */
  ghost predicate AtMostReachable(kids: Kids, root: nat, n: nat) {
    exists nodes: set<nat> :: |nodes| <= n && Covers(kids, root, nodes)
  }

  lemma FullIsExact(kids: Kids, root: nat, found: seq<nat>)
    requires AtMostReachable(kids, root, MAX_FOUND)
    requires Distinct(found) && |found| == MAX_FOUND && AllReachable(kids, root, found)
    ensures Exact(kids, root, found)
  {
    var nodes: set<nat> :| |nodes| <= MAX_FOUND && Covers(kids, root, nodes);
    var members := Members(found);
    DistinctSize(found);
    assert members <= nodes && |nodes| == |members| + |nodes - members|;
    assert nodes - members == {};
  }

  /** What a walk over a tree knows: nothing was noted twice, and a child was left out only when there was no room. */
  ghost predicate OnCourse(kids: Kids, root: nat, found: seq<nat>, pending: seq<nat>) {
    Accounted(kids, root, found, pending) && (Closed(kids, found, pending) || |found| + |pending| >= MAX_FOUND)
  }

  /** Visits the process on top of the stack. */
  method VisitTop(proc: Proc, root: nat, found: seq<nat>, pending: seq<nat>) returns (stack: seq<nat>)
    requires pending != [] && |found| < MAX_FOUND
    requires AllReachable(Listing(proc), root, found) && AllReachable(Listing(proc), root, pending)
    requires Tree(Listing(proc), root) ==> OnCourse(Listing(proc), root, found, pending)
    ensures AllReachable(Listing(proc), root, found + [pending[|pending| - 1]])
    ensures AllReachable(Listing(proc), root, stack)
    ensures Tree(Listing(proc), root) ==> OnCourse(Listing(proc), root, found + [pending[|pending| - 1]], stack)
  {
    ghost var kids := Listing(proc);
    var pid, rest := pending[|pending| - 1], pending[..|pending| - 1];
    var children := ReadChildren(TasksOf(proc, pid));
    assert children == kids(pid);
    var room := MAX_FOUND - (|found| + 1) - |rest|;
    var batch := First(children, if room > 0 then room else 0);
    stack := PushInRange(rest, batch);
    VisitKeepsReachable(kids, root, found, pending, found + [pid], stack, batch);
    if Tree(kids, root) {
      VisitKeepsAccount(kids, root, found, pending, found + [pid], stack, batch);
      if Closed(kids, found, pending) && batch == children {
        VisitKeepsClosed(kids, found, pending, found + [pid], stack, batch);
      }
    }
  }

  lemma WalkIsExact(kids: Kids, root: nat, found: seq<nat>, pending: seq<nat>)
    requires Tree(kids, root) && OnCourse(kids, root, found, pending)
    requires root in found && AllReachable(kids, root, found)
    requires |found| <= MAX_FOUND && (pending == [] || |found| == MAX_FOUND)
    ensures |found| == MAX_FOUND || Exact(kids, root, found)
    ensures AtMostReachable(kids, root, MAX_FOUND) ==> Exact(kids, root, found)
  {
    if |found| == MAX_FOUND {
      if AtMostReachable(kids, root, MAX_FOUND) { FullIsExact(kids, root, found); }
    } else {
      EmptyPendingIsExact(kids, root, found);
    }
  }

  /**
   * At most 64 distinct processes, the engine first, each reached from it. In a tree whose processes respect the
   * per-process caps the walk either stops full or finds everything, so it is exact when 64 are all there are.
   */
  method Descendants(proc: Proc, root: nat) returns (found: seq<nat>)
    ensures 0 < |found| <= MAX_FOUND && Distinct(found) && found[0] == root
    ensures forall x :: x in found ==> Reachable(Listing(proc), root, x)
    ensures Tree(Listing(proc), root) ==> |found| == MAX_FOUND || Exact(Listing(proc), root, found)
    ensures Tree(Listing(proc), root) && AtMostReachable(Listing(proc), root, MAX_FOUND) ==>
              Exact(Listing(proc), root, found)
  {
    ghost var kids := Listing(proc);
    found := [];
    var seen: set<nat> := {};
    var pending := [root];
    RootReachable(kids, root);
    while pending != [] && |found| < MAX_FOUND
      invariant |found| <= MAX_FOUND && Distinct(found) && seen == Members(found)
      invariant if found == [] then pending == [root] else found[0] == root
      invariant AllReachable(kids, root, found) && AllReachable(kids, root, pending)
      invariant Tree(kids, root) ==> OnCourse(kids, root, found, pending)
      decreases MAX_FOUND - |found|, |pending|
    {
      var pid := pending[|pending| - 1];
      if pid in seen {
        assert !Tree(kids, root);
        pending := pending[..|pending| - 1];
        continue;
      }
      pending := VisitTop(proc, root, found, pending);
      seen, found := seen + {pid}, found + [pid];
    }
    if Tree(kids, root) { WalkIsExact(kids, root, found, pending); }
  }
}
