/** JSON values and the two nesting checks: the recursive one of the inference contracts
    and the explicit-stack one of the coding contracts. */
module Json {
  import opened Wrappers
  import opened Text

  const MAX_DEPTH := 32

  /** A decoded document without floats. Objects are maps, so equality is dict equality. */
  datatype Json =
    | Null
    | Bool(b: bool)
    | Int(n: int)
    | Str(s: Text)
    | Arr(items: seq<Json>)
    | Obj(fields: map<Text, Json>)

  // ---------------------------------------------------------------- nodes and depth

  datatype Step = Index(i: nat) | Key(k: Text)

  /** The child of `v` that one step selects. */
  function Child(v: Json, s: Step): (r: Option<Json>)
    ensures r.Some? ==> r.value < v
  {
    match s
    case Index(i) => if v.Arr? && i < |v.items| then Some(v.items[i]) else None
    case Key(k) => if v.Obj? && k in v.fields then Some(v.fields[k]) else None
  }

  /** The node that a path from the root leads to; its depth is the length of the path. */
  function At(v: Json, path: seq<Step>): Option<Json>
    decreases path
  {
    if path == [] then Some(v)
    else match Child(v, path[0])
      case None => None
      case Some(w) => At(w, path[1..])
  }

  ghost predicate NoNodeDeeper(v: Json, n: int) {
    forall path :: At(v, path).Some? ==> |path| <= n
  }

  lemma DeeperUnfold(v: Json, n: int)
    ensures NoNodeDeeper(v, n) <==> n >= 0 && forall s | Child(v, s).Some? :: NoNodeDeeper(Child(v, s).value, n - 1)
  {
    assert At(v, []).Some?;
    if NoNodeDeeper(v, n) {
      forall s | Child(v, s).Some? ensures NoNodeDeeper(Child(v, s).value, n - 1) {
        forall path | At(Child(v, s).value, path).Some? ensures |path| <= n - 1 {
          assert ([s] + path)[1..] == path;
          assert At(v, [s] + path).Some?;
        }
      }
    } else {
      var path :| At(v, path).Some? && |path| > n;
      if n >= 0 {
        var w := Child(v, path[0]).value;
        assert At(w, path[1..]).Some? && |path[1..]| > n - 1;
      }
    }
  }

  // ---------------------------------------------------------------- recursive check

  /** Every string and every key is valid Unicode. */
  predicate UnicodeOnly(v: Json) {
    match v
    case Str(s) => IsUnicode(s)
    case Arr(items) => forall i | 0 <= i < |items| :: UnicodeOnly(items[i])
    case Obj(fields) => forall k | k in fields :: IsUnicode(k) && UnicodeOnly(fields[k])
    case _ => true
  }

  /** `_json_depth_and_unicode`: true when it returns, false when it raises. */
  predicate DepthAndUnicode(v: Json, depth: nat)
    decreases v
  {
    depth <= MAX_DEPTH &&
    match v
    case Str(s) => IsUnicode(s)
    case Arr(items) => forall i | 0 <= i < |items| :: DepthAndUnicode(items[i], depth + 1)
    case Obj(fields) => forall k | k in fields :: IsUnicode(k) && DepthAndUnicode(fields[k], depth + 1)
    case _ => true
  }

  lemma {:induction false} DepthAndUnicodeMeaning(v: Json, depth: nat)
    ensures DepthAndUnicode(v, depth) <==> NoNodeDeeper(v, 32 - depth) && UnicodeOnly(v)
    decreases v
  {
    DeeperUnfold(v, 32 - depth);
    forall s | Child(v, s).Some?
      ensures var w := Child(v, s).value;
              DepthAndUnicode(w, depth + 1) <==> NoNodeDeeper(w, 32 - depth - 1) && UnicodeOnly(w)
    {
      DepthAndUnicodeMeaning(Child(v, s).value, depth + 1);
    }
    match v
    case Arr(items) =>
      assert forall i | 0 <= i < |items| :: Child(v, Index(i)) == Some(items[i]);
    case Obj(fields) =>
      assert forall k | k in fields :: Child(v, Key(k)) == Some(fields[k]);
    case _ =>
  }

  // ---------------------------------------------------------------- explicit stack

  function Values(fields: map<Text, Json>, keys: seq<Text>): (r: seq<Json>)
    requires forall k | k in keys :: k in fields
    ensures |r| == |keys| && forall i | 0 <= i < |keys| :: r[i] == fields[keys[i]]
  {
    seq(|keys|, i requires 0 <= i < |keys| => assert keys[i] in keys; fields[keys[i]])
  }

  /** The nested values that the loop pushes. */
  function Children(v: Json): (r: seq<Json>)
    ensures forall w | w in r :: w < v
  {
    match v
    case Arr(items) => items
    case Obj(fields) => Values(fields, SortedKeys(fields.Keys))
    case _ => []
  }

  lemma ChildrenAreSteps(v: Json, w: Json)
    ensures w in Children(v) <==> exists s :: Child(v, s) == Some(w)
  {
    if w in Children(v) {
      var i :| 0 <= i < |Children(v)| && Children(v)[i] == w;
      assert Child(v, if v.Arr? then Index(i) else Key(SortedKeys(v.fields.Keys)[i])) == Some(w);
    }
    if s :| Child(v, s) == Some(w) {
      if s.Key? {
        var keys := SortedKeys(v.fields.Keys);
        assert s.k in keys;
        var i :| 0 <= i < |keys| && keys[i] == s.k;
        assert Children(v)[i] == w;
      }
    }
  }

  function Size(v: Json): (n: nat)
    ensures n >= 1
    decreases v
  {
    1 + SizeAll(v, Children(v))
  }

  function SizeAll(ghost parent: Json, vs: seq<Json>): nat
    requires forall w | w in vs :: w < parent
    decreases parent, |vs|
  {
    if vs == [] then 0
    else
      assert vs[0] in vs && forall w | w in vs[1..] :: w in vs;
      Size(vs[0]) + SizeAll(parent, vs[1..])
  }

  function StackSize(stack: seq<(Json, nat)>): nat {
    if stack == [] then 0 else Size(stack[|stack| - 1].0) + StackSize(stack[..|stack| - 1])
  }

  function Tagged(vs: seq<Json>, depth: nat): (r: seq<(Json, nat)>)
    ensures |r| == |vs| && forall i | 0 <= i < |vs| :: r[i] == (vs[i], depth)
  {
    seq(|vs|, i requires 0 <= i < |vs| => (vs[i], depth))
  }

  lemma {:induction false} StackSizePush(parent: Json, stack: seq<(Json, nat)>, vs: seq<Json>, depth: nat)
    requires forall w | w in vs :: w < parent
    ensures StackSize(stack + Tagged(vs, depth)) == StackSize(stack) + SizeAll(parent, vs)
    decreases |vs|
  {
    if vs == [] {
      assert stack + Tagged(vs, depth) == stack;
    } else {
      var s1 := stack + [(vs[0], depth)];
      assert s1[..|s1| - 1] == stack;
      assert s1 + Tagged(vs[1..], depth) == stack + Tagged(vs, depth);
      assert forall w | w in vs[1..] :: w in vs;
      StackSizePush(parent, s1, vs[1..], depth);
    }
  }

  /** Depth measured child by child, as the loop sees it. */
  predicate Shallow(v: Json, n: int)
    decreases v
  {
    n >= 0 && forall w | w in Children(v) :: Shallow(w, n - 1)
  }

  lemma {:induction false} ShallowMeaning(v: Json, n: int)
    ensures Shallow(v, n) <==> NoNodeDeeper(v, n)
    decreases v
  {
    DeeperUnfold(v, n);
    forall w | w in Children(v) ensures Shallow(w, n - 1) <==> NoNodeDeeper(w, n - 1) {
      ShallowMeaning(w, n - 1);
    }
    if Shallow(v, n) {
      forall s | Child(v, s).Some? ensures NoNodeDeeper(Child(v, s).value, n - 1) {
        ChildrenAreSteps(v, Child(v, s).value);
      }
    } else if n >= 0 {
      var w :| w in Children(v) && !Shallow(w, n - 1);
      ChildrenAreSteps(v, w);
    }
  }

  predicate AllShallow(stack: seq<(Json, nat)>) {
    forall e | e in stack :: Shallow(e.0, MAX_DEPTH - e.1)
  }

  /** One turn of the loop: pop the last entry and push its children one level deeper. */
  function Expand(stack: seq<(Json, nat)>): (r: seq<(Json, nat)>)
    requires stack != []
  {
    var top := stack[|stack| - 1];
    stack[..|stack| - 1] + Tagged(Children(top.0), top.1 + 1)
  }

  lemma AppendShallow(a: seq<(Json, nat)>, b: seq<(Json, nat)>)
    ensures AllShallow(a + b) <==> AllShallow(a) && AllShallow(b)
  {
  }

  lemma ExpandShallow(stack: seq<(Json, nat)>)
    requires stack != []
    ensures AllShallow(stack) <==> stack[|stack| - 1].1 <= MAX_DEPTH && AllShallow(Expand(stack))
  {
    hide Children;
    var (v, d) := stack[|stack| - 1];
    var below, kids := stack[..|stack| - 1], Tagged(Children(v), d + 1);
    assert stack == below + [(v, d)];
    assert Expand(stack) == below + kids;
    AppendShallow(below, [(v, d)]);
    AppendShallow(below, kids);
    assert AllShallow([(v, d)]) <==> Shallow(v, MAX_DEPTH - d);
    assert AllShallow(kids) <==> forall w | w in Children(v) :: Shallow(w, MAX_DEPTH - d - 1) by {
      if AllShallow(kids) {
        forall w | w in Children(v) ensures Shallow(w, MAX_DEPTH - d - 1) {
          var i :| 0 <= i < |Children(v)| && Children(v)[i] == w;
          assert kids[i] in kids;
        }
      } else {
        var e :| e in kids && !Shallow(e.0, MAX_DEPTH - e.1);
        assert e.0 in Children(v);
      }
    }
  }

  lemma {:induction false} ExpandShrinks(stack: seq<(Json, nat)>)
    requires stack != []
    ensures StackSize(Expand(stack)) < StackSize(stack)
  {
    var (v, d) := stack[|stack| - 1];
    StackSizePush(v, stack[..|stack| - 1], Children(v), d + 1);
  }

  /** The worklist of `parse_canonical_json`. */
  method StackDepthCheck(decoded: Json) returns (ok: bool)
    ensures ok <==> NoNodeDeeper(decoded, 32)
  {
    hide Children, Tagged, Shallow, NoNodeDeeper;
    ShallowMeaning(decoded, MAX_DEPTH);
    var stack: seq<(Json, nat)> := [(decoded, 0)];
    while stack != []
      invariant Shallow(decoded, MAX_DEPTH) <==> AllShallow(stack)
      decreases StackSize(stack)
    {
      ExpandShallow(stack);
      ExpandShrinks(stack);
      var value, depth := stack[|stack| - 1].0, stack[|stack| - 1].1;
      stack := stack[..|stack| - 1];
      if depth > MAX_DEPTH {
        return false;
      }
      stack := stack + Tagged(Children(value), depth + 1);
    }
    return true;
  }
}
