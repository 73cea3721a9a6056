/** The budget check of JSON-compatible values: one mutable node counter shared by the whole traversal. */
module JsonBudget {
  import opened SessionState

  const MAX_KEY := 128

  /** A mapping key that is not a string is None; the members of an array have no use for theirs. */
  datatype Member = Member(key: Option<string>, value: Value)

  datatype Value =
    | Null | Bool(b: bool) | Int(n: int) | Float(finite: bool) | Text(s: string)
    | Obj(members: seq<Member>) | Arr(members: seq<Member>)
    | Unsupported

  datatype Limits = Limits(depth: int, nodes: int, items: int, chars: int)

  function Members(v: Value): seq<Member> {
    if v.Obj? || v.Arr? then v.members else []
  }

  function Nodes(v: Value): (n: nat)
    ensures n > 0
    decreases v, |Members(v)| + 1
  {
    1 + NodesBelow(v, |Members(v)|)
  }

  /** The nodes in the first `k` members of a collection. */
  function NodesBelow(v: Value, k: nat): nat
    requires k <= |Members(v)|
    decreases v, k
  {
    if k == 0 then 0 else NodesBelow(v, k - 1) + Nodes(Members(v)[k - 1].value)
  }

  predicate GoodKey(m: Member) { m.key.Some? && |m.key.value| <= MAX_KEY }

  /** What the limits say about one value apart from what it contains. */
  predicate Fits(v: Value, l: Limits) {
    match v
    case Text(s) => |s| <= l.chars
    case Obj(ms) => |ms| <= l.items && forall k :: 0 <= k < |ms| ==> GoodKey(ms[k])
    case Arr(ms) => |ms| <= l.items
    case Float(finite) => finite
    case Unsupported => false
    case _ => true
  }

  /** The value found by following member positions. */
  function At(v: Value, path: seq<nat>): Option<Value>
    decreases |path|
  {
    if path == [] then Some(v)
    else if path[0] < |Members(v)| then At(Members(v)[path[0]].value, path[1..])
    else None
  }

  // ----- The node count is the number of places in the value -----

  function Prefixed(k: nat, ps: seq<seq<nat>>): (r: seq<seq<nat>>)
    ensures |r| == |ps| && forall i :: 0 <= i < |ps| ==> r[i] == [k] + ps[i]
  {
    seq(|ps|, i requires 0 <= i < |ps| => [k] + ps[i])
  }

  function Paths(v: Value): seq<seq<nat>>
    decreases v, |Members(v)| + 1
  {
    [[]] + PathsBelow(v, |Members(v)|)
  }

  function PathsBelow(v: Value, k: nat): seq<seq<nat>>
    requires k <= |Members(v)|
    decreases v, k
  {
    if k == 0 then [] else PathsBelow(v, k - 1) + Prefixed(k - 1, Paths(Members(v)[k - 1].value))
  }

  ghost predicate Distinct(ps: seq<seq<nat>>) { forall i, j :: 0 <= i < j < |ps| ==> ps[i] != ps[j] }

  /** A path into one of the first `k` members. */
  predicate Into(v: Value, k: nat, path: seq<nat>) { path != [] && path[0] < k && At(v, path).Some? }

  lemma PrefixedExactly(k: nat, ps: seq<seq<nat>>, path: seq<nat>)
    ensures path in Prefixed(k, ps) <==> path != [] && path[0] == k && path[1..] in ps
    ensures Distinct(ps) ==> Distinct(Prefixed(k, ps))
  {
    var r := Prefixed(k, ps);
    if path in r {
      var i :| 0 <= i < |r| && r[i] == path;
      assert path[1..] == ps[i];
    }
    if path != [] && path[0] == k && path[1..] in ps {
      var i :| 0 <= i < |ps| && ps[i] == path[1..];
      assert r[i] == path;
    }
    forall i, j | Distinct(ps) && 0 <= i < j < |r| ensures r[i] != r[j] {
      assert r[i][1..] == ps[i] && r[j][1..] == ps[j];
    }
  }

  lemma {:induction false} PathsBelowExactly(v: Value, k: nat)
    requires k <= |Members(v)|
    ensures |PathsBelow(v, k)| == NodesBelow(v, k) && Distinct(PathsBelow(v, k))
    ensures forall path :: path in PathsBelow(v, k) <==> Into(v, k, path)
    decreases v, k
  {
    if k > 0 {
      var before, last, m := PathsBelow(v, k - 1), Paths(Members(v)[k - 1].value), Members(v)[k - 1].value;
      PathsBelowExactly(v, k - 1);
      PathsExactly(m);
      var added := Prefixed(k - 1, last);
      forall path ensures path in added <==> Into(v, k, path) && path[0] == k - 1 {
        PrefixedExactly(k - 1, last, path);
      }
      PrefixedExactly(k - 1, last, []);
      JoinsDistinct(before, added, k - 1);
    }
  }

  lemma JoinsDistinct(a: seq<seq<nat>>, b: seq<seq<nat>>, k: nat)
    requires Distinct(a) && Distinct(b)
    requires forall path :: path in a ==> path != [] && path[0] < k
    requires forall path :: path in b ==> path != [] && path[0] == k
    ensures Distinct(a + b)
  {
    forall i, j | 0 <= i < j < |a + b| ensures (a + b)[i] != (a + b)[j] {
      if i < |a| <= j { assert a[i] in a && b[j - |a|] in b; }
    }
  }

  /** The paths of a value, each once, are as many as its nodes. */
  lemma {:induction false} PathsExactly(v: Value)
    ensures |Paths(v)| == Nodes(v) && Distinct(Paths(v))
    ensures forall path :: path in Paths(v) <==> At(v, path).Some?
    decreases v, |Members(v)| + 1
  {
    var below := PathsBelow(v, |Members(v)|);
    PathsBelowExactly(v, |Members(v)|);
    assert forall j :: 0 <= j < |below| ==> below[j] in below;
    assert Paths(v) == [[]] + below;
  }

  predicate FitsAt(v: Value, path: seq<nat>, depth: int, l: Limits)
    requires At(v, path).Some?
  {
    depth + |path| <= l.depth && Fits(At(v, path).value, l)
  }

  /** Every value in it fits, and none is deeper than the limit. */
  ghost predicate AllFit(v: Value, depth: int, l: Limits) {
    forall path :: At(v, path).Some? ==> FitsAt(v, path, depth, l)
  }

  ghost predicate Accepts(v: Value, l: Limits) {
    Nodes(v) <= l.nodes && AllFit(v, 0, l)
  }

  /** Raising any limit accepts no less. */
  lemma AcceptanceIsMonotone(v: Value, l: Limits, m: Limits)
    requires Accepts(v, l)
    requires l.depth <= m.depth && l.nodes <= m.nodes && l.items <= m.items && l.chars <= m.chars
    ensures Accepts(v, m)
  {
    forall path | At(v, path).Some? ensures FitsAt(v, path, 0, m) {
      assert FitsAt(v, path, 0, l);
    }
  }

  /** The same, as the traversal establishes it. */
  predicate Within(v: Value, depth: int, l: Limits)
    decreases v, |Members(v)| + 1
  {
    depth <= l.depth && Fits(v, l) && WithinBelow(v, |Members(v)|, depth + 1, l)
  }

  predicate WithinBelow(v: Value, k: nat, depth: int, l: Limits)
    requires k <= |Members(v)|
    decreases v, k
  {
    k == 0 || (WithinBelow(v, k - 1, depth, l) && Within(Members(v)[k - 1].value, depth, l))
  }

  lemma {:induction false} EveryPathFits(v: Value, path: seq<nat>, depth: int, l: Limits)
    requires Within(v, depth, l) && At(v, path).Some?
    ensures FitsAt(v, path, depth, l)
    decreases |path|
  {
    if path != [] {
      BelowMeansEach(v, |Members(v)|, depth + 1, l);
      EveryPathFits(Members(v)[path[0]].value, path[1..], depth + 1, l);
    }
  }

  lemma {:induction false} SomePathDoesNot(v: Value, depth: int, l: Limits) returns (path: seq<nat>)
    requires !Within(v, depth, l)
    ensures At(v, path).Some? && !FitsAt(v, path, depth, l)
    decreases v
  {
    if depth > l.depth || !Fits(v, l) { return []; }
    BelowMeansEach(v, |Members(v)|, depth + 1, l);
    var k: nat :| k < |Members(v)| && !Within(Members(v)[k].value, depth + 1, l);
    var rest := SomePathDoesNot(Members(v)[k].value, depth + 1, l);
    path := [k] + rest;
    PathInto(v, k, rest, path);
  }

  lemma PathInto(v: Value, k: nat, rest: seq<nat>, path: seq<nat>)
    requires k < |Members(v)| && path == [k] + rest
    ensures At(v, path) == At(Members(v)[k].value, rest)
  {
    assert path[1..] == rest;
  }

  lemma WithinExactly(v: Value, depth: int, l: Limits)
    ensures Within(v, depth, l) <==> AllFit(v, depth, l)
  {
    if Within(v, depth, l) {
      forall path | At(v, path).Some? ensures FitsAt(v, path, depth, l) { EveryPathFits(v, path, depth, l); }
    } else {
      var path := SomePathDoesNot(v, depth, l);
    }
  }

  lemma {:induction false} BelowMeansEach(v: Value, k: nat, depth: int, l: Limits)
    requires k <= |Members(v)|
    ensures WithinBelow(v, k, depth, l) <==> forall j :: 0 <= j < k ==> Within(Members(v)[j].value, depth, l)
    decreases k
  {
    if k > 0 { BelowMeansEach(v, k - 1, depth, l); }
  }

  lemma {:induction false} WithinBelowShrinks(v: Value, k: nat, m: nat, depth: int, l: Limits)
    requires k <= m <= |Members(v)| && WithinBelow(v, m, depth, l)
    ensures WithinBelow(v, k, depth, l)
    decreases m
  {
    if k < m { WithinBelowShrinks(v, k, m - 1, depth, l); }
  }

  lemma {:induction false} NodesBelowGrows(v: Value, k: nat, m: nat)
    requires k <= m <= |Members(v)|
    ensures NodesBelow(v, k) <= NodesBelow(v, m)
    decreases m
  {
    if k < m { NodesBelowGrows(v, k, m - 1); }
  }

  class Validator {
    const limits: Limits
    var remaining: int

    constructor (limits: Limits)
      ensures this.limits == limits && remaining == limits.nodes
    {
      this.limits := limits;
      remaining := limits.nodes;
    }

    /** Goes through `item`; false stands for the exception, which abandons the traversal. */
    method Visit(item: Value, depth: int) returns (ok: bool)
      modifies this
      ensures ok <==> Nodes(item) <= old(remaining) && Within(item, depth, limits)
      ensures ok ==> remaining == old(remaining) - Nodes(item)
      decreases item, 1
    {
      remaining := remaining - 1;
      if remaining < 0 { return false; }
      if depth > limits.depth { return false; }
      match item
      case Text(s) => ok := |s| <= limits.chars;
      case Obj(members) =>
        if |members| > limits.items { return false; }
        ok := VisitMembers(item, depth);
      case Arr(members) =>
        if |members| > limits.items { return false; }
        ok := VisitMembers(item, depth);
      case Float(finite) => ok := finite;
      case Unsupported => ok := false;
      case _ => ok := true;
    }

    method VisitMembers(item: Value, depth: int) returns (ok: bool)
      requires (item.Obj? || item.Arr?) && |item.members| <= limits.items && remaining >= 0
      modifies this
      ensures ok <==>
              && NodesBelow(item, |item.members|) <= old(remaining) && Fits(item, limits)
              && WithinBelow(item, |item.members|, depth + 1, limits)
      ensures ok ==> remaining == old(remaining) - NodesBelow(item, |item.members|)
      decreases item, 0
    {
      for k := 0 to |item.members|
        invariant remaining == old(remaining) - NodesBelow(item, k) && remaining >= 0
        invariant WithinBelow(item, k, depth + 1, limits)
        invariant item.Obj? ==> forall j :: 0 <= j < k ==> GoodKey(item.members[j])
      {
        var m := item.members[k];
        if item.Obj? && !GoodKey(m) { return false; }
        NodesBelowGrows(item, k + 1, |item.members|);
        var fits := Visit(m.value, depth + 1);
        if !fits {
          if WithinBelow(item, |item.members|, depth + 1, limits) {
            WithinBelowShrinks(item, k + 1, |item.members|, depth + 1, limits);
          }
          return false;
        }
      }
      return true;
    }
  }

  /** Accepted exactly when the node count and everything in the value are within the limits. */
  method ValidateJsonBudget(value: Value, limits: Limits) returns (ok: bool)
    ensures ok <==> Accepts(value, limits)
  {
    var v := new Validator(limits);
    ok := v.Visit(value, 0);
    WithinExactly(value, 0, limits);
  }
}
