/**
  The object tree of `Scene_initializer`: every drawable object owns the
  sequence of its children (`enfants`), and the scene keeps the root.  The
  searches walk the tree recursively, visiting children left to right:
  find by name, nearest object to a point, and the object a mouse ray picks.
  Drawing visits a parent before its children; deletion deletes the
  children before their parent.

  A node stands for a heap object: `id` is its identity, `name` its name and
  `children` its `enfants`.  What an object computes about itself at the
  current time (its position, and whether a ray passes close enough to it)
  is a parameter of the search.
 */
module SceneTree {
  import opened Wrappers
  import opened Maths
  import opened Vectors

  datatype Node = Node(id: nat, name: string, children: seq<Node>)

  /** The subtree of `n` in pre-order: the node first, then its children's subtrees in order. */
  function Preorder(n: Node): seq<Node>
    decreases n, 1
  {
    [n] + PreorderAll(n.children)
  }

  function PreorderAll(cs: seq<Node>): seq<Node>
    decreases cs, 0
  {
    if cs == [] then [] else Preorder(cs[0]) + PreorderAll(cs[1..])
  }

  /** The subtree of `n` in post-order: the children's subtrees in order, then the node. */
  function Postorder(n: Node): seq<Node>
    decreases n, 1
  {
    PostorderAll(n.children) + [n]
  }

  function PostorderAll(cs: seq<Node>): seq<Node>
    decreases cs, 0
  {
    if cs == [] then [] else Postorder(cs[0]) + PostorderAll(cs[1..])
  }

  /** The number of nodes in `n`'s subtree. */
  function Size(n: Node): nat
    decreases n, 1
  {
    1 + SizeAll(n.children)
  }

  function SizeAll(cs: seq<Node>): nat
    decreases cs, 0
  {
    if cs == [] then 0 else Size(cs[0]) + SizeAll(cs[1..])
  }

  /** A traversal lists every node of the subtree once per occurrence, in both orders. */
  lemma {:induction false} TraversalSizes(n: Node)
    ensures |Preorder(n)| == Size(n) && |Postorder(n)| == Size(n)
    ensures multiset(Preorder(n)) == multiset(Postorder(n))
    decreases n, 1
  {
    TraversalSizesAll(n.children);
  }

  lemma {:induction false} TraversalSizesAll(cs: seq<Node>)
    ensures |PreorderAll(cs)| == SizeAll(cs) && |PostorderAll(cs)| == SizeAll(cs)
    ensures multiset(PreorderAll(cs)) == multiset(PostorderAll(cs))
    decreases cs, 0
  {
    if cs != [] {
      TraversalSizes(cs[0]);
      TraversalSizesAll(cs[1..]);
    }
  }

  /** The traversals of a prefix extended by one more child. */
  lemma {:induction false} TraversalsSnoc(cs: seq<Node>, c: Node)
    ensures PreorderAll(cs + [c]) == PreorderAll(cs) + Preorder(c)
    ensures PostorderAll(cs + [c]) == PostorderAll(cs) + Postorder(c)
    ensures SizeAll(cs + [c]) == SizeAll(cs) + Size(c)
  {
    if cs == [] {
      assert [c][1..] == [];
    } else {
      assert (cs + [c])[1..] == cs[1..] + [c];
      TraversalsSnoc(cs[1..], c);
    }
  }

  /**
    Where child `i` sits in the pre-order of its parent: right after the
    parent and the subtrees of the children before it.
   */
  lemma PreorderChild(n: Node, i: nat)
    requires i < |n.children|
    ensures Preorder(n)[0] == n
    ensures var lo := 1 + SizeAll(n.children[..i]);
      lo + Size(n.children[i]) <= |Preorder(n)| && Preorder(n)[lo .. lo + Size(n.children[i])] == Preorder(n.children[i])
  {
    hide Preorder, PreorderAll, Size, SizeAll;
    var cs, c := n.children, n.children[i];
    var x, y, z := [n] + PreorderAll(cs[..i]), Preorder(c), PreorderAll(cs[i + 1..]);
    assert Preorder(n) == x + y + z by {
      PrefixTraversals(cs, i);
      SplitAt(cs, i);
      UnfoldPreorder(n);
      UnfoldPreorderAll(cs[i..]);
    }
    assert |x| == 1 + SizeAll(cs[..i]) && |y| == Size(c) by {
      TraversalSizesAll(cs[..i]);
      TraversalSizes(c);
    }
    SliceMiddle(x, y, z);
  }

  /**
    Where child `i` sits in the post-order of its parent: right after the
    subtrees of the children before it, and before the parent, which comes last.
   */
  lemma PostorderChild(n: Node, i: nat)
    requires i < |n.children|
    ensures Postorder(n)[|Postorder(n)| - 1] == n
    ensures var lo := SizeAll(n.children[..i]);
      lo + Size(n.children[i]) < |Postorder(n)| && Postorder(n)[lo .. lo + Size(n.children[i])] == Postorder(n.children[i])
  {
    hide Postorder, PostorderAll, Size, SizeAll;
    var cs, c := n.children, n.children[i];
    var x, y, z := PostorderAll(cs[..i]), Postorder(c), PostorderAll(cs[i + 1..]) + [n];
    assert Postorder(n) == x + y + z by {
      PrefixTraversals(cs, i);
      SplitAt(cs, i);
      UnfoldPostorder(n);
      UnfoldPostorderAll(cs[i..]);
    }
    assert |x| == SizeAll(cs[..i]) && |y| == Size(c) by {
      TraversalSizesAll(cs[..i]);
      TraversalSizes(c);
    }
    SliceMiddle(x, y, z);
  }

  lemma UnfoldPreorder(n: Node)
    ensures Preorder(n) == [n] + PreorderAll(n.children)
  {
  }

  lemma UnfoldPostorder(n: Node)
    ensures Postorder(n) == PostorderAll(n.children) + [n]
  {
  }

  lemma UnfoldPreorderAll(cs: seq<Node>)
    requires cs != []
    ensures PreorderAll(cs) == Preorder(cs[0]) + PreorderAll(cs[1..])
  {
  }

  lemma UnfoldPostorderAll(cs: seq<Node>)
    requires cs != []
    ensures PostorderAll(cs) == Postorder(cs[0]) + PostorderAll(cs[1..])
  {
  }

  lemma SplitAt(cs: seq<Node>, i: nat)
    requires i < |cs|
    ensures cs[i..] != [] && cs[i..][0] == cs[i] && cs[i..][1..] == cs[i + 1..]
  {
  }

  lemma SliceMiddle(x: seq<Node>, y: seq<Node>, z: seq<Node>)
    ensures (x + y + z)[|x| .. |x| + |y|] == y
  {
  }

  /** The traversals of a sequence of children split at `k`. */
  lemma {:induction false} PrefixTraversals(cs: seq<Node>, k: nat)
    requires k <= |cs|
    ensures PreorderAll(cs) == PreorderAll(cs[..k]) + PreorderAll(cs[k..])
    ensures PostorderAll(cs) == PostorderAll(cs[..k]) + PostorderAll(cs[k..])
  {
    if k > 0 {
      assert cs[..k][0] == cs[0] && cs[..k][1..] == cs[1..][..k - 1];
      assert cs[k..] == cs[1..][k - 1..];
      PrefixTraversals(cs[1..], k - 1);
    }
  }

  // ----- get_object_rec_ -------------------------------------------------

  /** The first node of `s` called `name`. */
  function FirstNamed(name: string, s: seq<Node>): (r: Option<Node>)
    ensures r.None? <==> forall m :: m in s ==> m.name != name
    ensures r.Some? ==> r.value in s && r.value.name == name
  {
    if s == [] then None
    else if s[0].name == name then Some(s[0])
    else FirstNamed(name, s[1..])
  }

  /** `FirstNamed` on a concatenation looks in the second part only when the first has no match. */
  lemma {:induction false} FirstNamedAppend(name: string, a: seq<Node>, b: seq<Node>)
    ensures FirstNamed(name, a + b) == if FirstNamed(name, a).Some? then FirstNamed(name, a) else FirstNamed(name, b)
  {
    if a == [] {
      assert a + b == b;
    } else {
      assert (a + b)[0] == a[0] && (a + b)[1..] == a[1..] + b;
      FirstNamedAppend(name, a[1..], b);
    }
  }

  /** What `get_object_rec_(name, start)` returns: `start` if it has the name, else the first child subtree's match. */
  function Find(name: string, n: Node): Option<Node>
    decreases n, 1
  {
    if n.name == name then Some(n) else FindIn(name, n.children)
  }

  function FindIn(name: string, cs: seq<Node>): Option<Node>
    decreases cs, 0
  {
    if cs == [] then None
    else
      var res := Find(name, cs[0]);
      if res.Some? then res else FindIn(name, cs[1..])
  }

  /**
    The recursive search is the first node with that name in pre-order; so it
    is `None` exactly when no node of the subtree has the name, and otherwise
    a node of the subtree that has it.
   */
  lemma {:induction false} FindIsFirstInPreorder(name: string, n: Node)
    ensures Find(name, n) == FirstNamed(name, Preorder(n))
    decreases n, 1
  {
    assert Preorder(n)[0] == n && Preorder(n)[1..] == PreorderAll(n.children);
    FindInIsFirst(name, n.children);
  }

  lemma {:induction false} FindInIsFirst(name: string, cs: seq<Node>)
    ensures FindIn(name, cs) == FirstNamed(name, PreorderAll(cs))
    decreases cs, 0
  {
    if cs != [] {
      FindIsFirstInPreorder(name, cs[0]);
      FindInIsFirst(name, cs[1..]);
      FirstNamedAppend(name, Preorder(cs[0]), PreorderAll(cs[1..]));
    }
  }

  /**
    `get_object_rec_(name, start)`: `start` if it has the name, otherwise the
    first non-null result of the children, left to right, else `nullptr`.
   */
  method GetObjectRec(name: string, start: Node) returns (res: Option<Node>)
    ensures res == Find(name, start)
    ensures res == FirstNamed(name, Preorder(start))
    decreases start
  {
    FindIsFirstInPreorder(name, start);
    if start.name == name {
      return Some(start);
    }
    var cs := start.children;
    var i := 0;
    while i < |cs|
      invariant 0 <= i <= |cs|
      invariant FindIn(name, cs) == FindIn(name, cs[i..])
    {
      assert cs[i..][0] == cs[i] && cs[i..][1..] == cs[i + 1..];
      res := GetObjectRec(name, cs[i]);
      if res.Some? {
        return res;
      }
      i := i + 1;
    }
    return None;
  }

  // ----- closest_object_rec ----------------------------------------------

  /**
    `closest_object_rec(pos, p, t)`, with `position` the objects' positions at
    time `t`.  The running minimum `min(mindist, ·)` can never exceed
    `mindist`, so the replacing branch never runs and the result is always
    the root `p` itself.
   */
  method ClosestObjectRec(e: Elementary, position: Node -> Vec3, pos: Vec3, p: Node) returns (minp: Node)
    ensures minp == p
    decreases p
  {
    var mindist := Norm(e, Sub(pos, position(p)));
    minp := p;
    for i := 0 to |p.children|
      invariant minp == p && mindist == Norm(e, Sub(pos, position(p)))
    {
      var k := ClosestObjectRec(e, position, pos, p.children[i]);
      var tempmindist := Min(mindist, Norm(e, Sub(position(k), pos)));
      if tempmindist > mindist {
        mindist := tempmindist;
        minp := k;
      }
    }
  }

  /** The distance between `pos` and object `n`. */
  function Gap(e: Elementary, position: Node -> Vec3, pos: Vec3, n: Node): real
  {
    Norm(e, Sub(pos, position(n)))
  }

  /**
    A planet with one moon, where the moon is nearer to the query point than
    the planet: `closest_object_rec` still returns the planet.
   */
  lemma ClosestObjectMissesNearerChild(e: Elementary)
    requires SqrtLaw(e.sqrt)
    ensures var moon := Node(1, "moon", []);
      var planet := Node(0, "planet", [moon]);
      var position := (m: Node) => if m.id == 0 then Vec3(1.0, 0.0, 0.0) else Zero;
      moon in Preorder(planet) && moon != planet && Gap(e, position, Zero, moon) < Gap(e, position, Zero, planet)
  {
    var moon := Node(1, "moon", []);
    var planet := Node(0, "planet", [moon]);
    var position := (m: Node) => if m.id == 0 then Vec3(1.0, 0.0, 0.0) else Zero;
    assert Preorder(planet) == [planet, moon] by {
      assert PreorderAll(planet.children) == Preorder(moon) + PreorderAll([]);
    }
    NormZero(e, Sub(Zero, position(moon)));
    NormZero(e, Sub(Zero, position(planet)));
  }

  /**
    The nearest-object search as documented ("finds closest object to
    position"): a child's answer replaces the current one when it is
    strictly nearer, so the result is a nearest node of the subtree.
   */
  method ClosestObject(e: Elementary, position: Node -> Vec3, pos: Vec3, p: Node) returns (minp: Node)
    ensures minp in Preorder(p)
    ensures forall m :: m in Preorder(p) ==> Gap(e, position, pos, minp) <= Gap(e, position, pos, m)
    decreases p
  {
    var mindist := Gap(e, position, pos, p);
    minp := p;
    for i := 0 to |p.children|
      invariant minp in Preorder(p) && mindist == Gap(e, position, pos, minp)
      invariant forall m :: m in [p] + PreorderAll(p.children[..i]) ==> mindist <= Gap(e, position, pos, m)
    {
      var k := ClosestObject(e, position, pos, p.children[i]);
      var d := Gap(e, position, pos, k);
      assert p.children[..i + 1] == p.children[..i] + [p.children[i]];
      TraversalsSnoc(p.children[..i], p.children[i]);
      PrefixTraversals(p.children, i + 1);
      assert k in PreorderAll(p.children);
      if d < mindist {
        mindist := d;
        minp := k;
      }
    }
    assert p.children[..|p.children|] == p.children;
  }

  // ----- closest_angle_rec -----------------------------------------------

  /**
    A picking query: the distance of each object from the camera position
    (`norm(position - c_pos)`), and whether the ray passes within the
    object's angular size or `angle_select` (`angle < max(angle_min, angle_select)`).
   */
  datatype Pick = Pick(position: Node -> Vec3, cPos: Vec3, hit: Node -> bool)

  function Distance(e: Elementary, q: Pick, n: Node): real
  {
    Norm(e, Sub(q.position(n), q.cPos))
  }

  /** The result of `closest_angle_rec`: the node picked (or `nullptr`) and `dist_return`. */
  datatype Picked = Picked(best: Option<Node>, dist: real)

  /** `closest_angle_rec` before its loop over `enfants`: the node itself is the pick when it is hit. */
  function PickStart(e: Elementary, q: Pick, n: Node): Picked
  {
    Picked(if q.hit(n) then Some(n) else None, Distance(e, q, n))
  }

  /** One round of `closest_angle_rec`'s loop over `enfants`: a child's pick replaces the current one when there is none yet, or when it is strictly nearer. */
  function PickStep(acc: Picked, k: Picked): Picked
  {
    if k.best.Some? && (acc.best.None? || k.dist < acc.dist) then k else acc
  }

  /** What `closest_angle_rec` returns for the subtree of `n`. */
  function ClosestAngle(e: Elementary, q: Pick, n: Node): Picked
    decreases n, 1
  {
    PickFold(e, q, PickStart(e, q, n), n.children)
  }

  function PickFold(e: Elementary, q: Pick, acc: Picked, cs: seq<Node>): Picked
    decreases cs, 0
  {
    if cs == [] then acc else PickFold(e, q, PickStep(acc, ClosestAngle(e, q, cs[0])), cs[1..])
  }

  /**
    `acc` is a correct pick over the nodes `s` of a search rooted at `root`:
    none when no node of `s` is hit (the distance then being the root's own),
    otherwise a hit node of `s` at least as near as every hit node of `s`,
    with its distance.
   */
  ghost predicate PickedOver(e: Elementary, q: Pick, acc: Picked, s: seq<Node>, root: Node)
  {
    && (acc.best.None? ==> (forall m :: m in s ==> !q.hit(m)) && acc.dist == Distance(e, q, root))
    && (acc.best.Some? ==>
          && acc.best.value in s && q.hit(acc.best.value) && acc.dist == Distance(e, q, acc.best.value)
          && forall m :: m in s && q.hit(m) ==> acc.dist <= Distance(e, q, m))
  }

  lemma PickStepOver(e: Elementary, q: Pick, acc: Picked, s: seq<Node>, root: Node, k: Picked, t: seq<Node>, c: Node)
    requires PickedOver(e, q, acc, s, root) && PickedOver(e, q, k, t, c)
    ensures PickedOver(e, q, PickStep(acc, k), s + t, root)
  {
  }

  /**
    `closest_angle_rec` picks a node exactly when some node of the subtree is
    hit; the node it picks is hit, and no hit node of the subtree is nearer.
   */
  lemma {:induction false} ClosestAngleCorrect(e: Elementary, q: Pick, n: Node)
    ensures PickedOver(e, q, ClosestAngle(e, q, n), Preorder(n), n)
    decreases n, 1
  {
    PickFoldOver(e, q, PickStart(e, q, n), [n], n, n.children);
  }

  lemma {:induction false} PickFoldOver(e: Elementary, q: Pick, acc: Picked, s: seq<Node>, root: Node, cs: seq<Node>)
    requires PickedOver(e, q, acc, s, root)
    ensures PickedOver(e, q, PickFold(e, q, acc, cs), s + PreorderAll(cs), root)
    decreases cs, 0
  {
    if cs == [] {
      assert s + PreorderAll(cs) == s;
    } else {
      var k := ClosestAngle(e, q, cs[0]);
      ClosestAngleCorrect(e, q, cs[0]);
      PickStepOver(e, q, acc, s, root, k, Preorder(cs[0]), cs[0]);
      PickFoldOver(e, q, PickStep(acc, k), s + Preorder(cs[0]), root, cs[1..]);
      assert s + PreorderAll(cs) == (s + Preorder(cs[0])) + PreorderAll(cs[1..]);
    }
  }

  /** The pick is `nullptr` exactly when no node of the subtree is hit. */
  lemma ClosestAngleNone(e: Elementary, q: Pick, n: Node)
    ensures ClosestAngle(e, q, n).best.None? <==> forall m :: m in Preorder(n) ==> !q.hit(m)
  {
    ClosestAngleCorrect(e, q, n);
  }

  /**
    `closest_angle_rec(ray, c_pos, p, t, angle_select, dist_return)`: returns
    the pick and sets `dist_return`.
   */
  method ClosestAngleRec(e: Elementary, q: Pick, p: Node) returns (best: Option<Node>, distReturn: real)
    ensures Picked(best, distReturn) == ClosestAngle(e, q, p)
    decreases p
  {
    var dist := Distance(e, q, p);
    best := None;
    if q.hit(p) {
      best := Some(p);
    }
    var cs := p.children;
    for i := 0 to |cs|
      invariant ClosestAngle(e, q, p) == PickFold(e, q, Picked(best, dist), cs[i..])
    {
      assert cs[i..][0] == cs[i] && cs[i..][1..] == cs[i + 1..];
      var k, dist' := ClosestAngleRec(e, q, cs[i]);
      if k.Some? {
        if best.None? || dist' < dist {
          dist := dist';
          best := k;
        }
      }
    }
    distReturn := dist;
  }

  // ----- the scene: root, meshes, drawing and deletion ---------------------

  /** A `vcl::mesh_drawable*`, compared by identity only. */
  datatype Mesh = Mesh(id: nat)

  /**
    The part of `Scene_initializer` the traversals use: the root object, the
    mesh registry, and the objects drawn and deleted so far (`draw_obj` and
    `delete` are effects outside the model; the logs record their order).
   */
  class Scene {
    var root: Node
    var meshes: map<string, Mesh>
    var drawn: seq<Node>
    var deleted: seq<Node>

    constructor (root0: Node)
      ensures root == root0 && meshes == map[] && drawn == [] && deleted == []
    {
      root := root0;
      meshes := map[];
      drawn := [];
      deleted := [];
    }

    /** `add_mesh(m, name)`: `name` now maps to `m`, replacing any earlier mesh; other names keep theirs. */
    method AddMesh(m: Mesh, name: string)
      modifies this
      ensures name in meshes && meshes[name] == m
      ensures forall k :: k != name ==> (k in meshes <==> k in old(meshes))
      ensures forall k :: k != name && k in meshes ==> meshes[k] == old(meshes)[k]
      ensures root == old(root) && drawn == old(drawn) && deleted == old(deleted)
    {
      meshes := meshes[name := m];
    }

    /** `get_object(name)`: the search from the root. */
    method GetObject(name: string) returns (res: Option<Node>)
      ensures res == FirstNamed(name, Preorder(root))
    {
      res := GetObjectRec(name, root);
    }

    /** `draw_rec_(t, scene, p)`: `p` is drawn, then each child's subtree in order. */
    method DrawRec(p: Node)
      modifies this
      ensures drawn == old(drawn) + Preorder(p)
      ensures root == old(root) && meshes == old(meshes) && deleted == old(deleted)
      decreases p
    {
      drawn := drawn + [p];
      var cs := p.children;
      for i := 0 to |cs|
        invariant drawn == old(drawn) + [p] + PreorderAll(cs[..i])
        invariant root == old(root) && meshes == old(meshes) && deleted == old(deleted)
      {
        TraversalsSnoc(cs[..i], cs[i]);
        assert cs[..i] + [cs[i]] == cs[..i + 1];
        DrawRec(cs[i]);
      }
      assert cs[..|cs|] == cs;
    }

    /** `draw(t, scene)`: every object of the tree drawn in pre-order. */
    method Draw()
      modifies this
      ensures drawn == old(drawn) + Preorder(root)
      ensures root == old(root) && meshes == old(meshes) && deleted == old(deleted)
    {
      DrawRec(root);
    }

    /** `delete_rec(d)`: each child's subtree is deleted in order, then `d`. */
    method DeleteRec(d: Node)
      modifies this
      ensures deleted == old(deleted) + Postorder(d)
      ensures root == old(root) && meshes == old(meshes) && drawn == old(drawn)
      decreases d
    {
      var cs := d.children;
      for i := 0 to |cs|
        invariant deleted == old(deleted) + PostorderAll(cs[..i])
        invariant root == old(root) && meshes == old(meshes) && drawn == old(drawn)
      {
        TraversalsSnoc(cs[..i], cs[i]);
        assert cs[..i] + [cs[i]] == cs[..i + 1];
        DeleteRec(cs[i]);
      }
      assert cs[..|cs|] == cs;
      deleted := deleted + [d];
    }

    /** `kill_initializer()`: every object of the tree deleted in post-order. */
    method KillInitializer()
      modifies this
      ensures deleted == old(deleted) + Postorder(root)
      ensures root == old(root) && meshes == old(meshes) && drawn == old(drawn)
    {
      DeleteRec(root);
    }
  }
}
