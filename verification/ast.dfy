/** Scene nodes and the point registry the parser maintains. */
module Ast {

  /** A placed point. Coordinates are kept as the NUMBER lexemes they were
      written as; their conversion to floating point is not modelled. */
  datatype Point = Point(name: string, x: string, y: string)

  /** The four node kinds of a scene. */
  datatype Node =
    | PointNode(point: Point)
    | RectangleNode(points: seq<Point>)
    | TriangleNode(points: seq<Point>)
    | LineNode(point1: Point, point2: Point)

  /** The parser's registry of placed points, by name. */
  type Registry = map<string, Point>

  /** Every entry is stored under its own name. */
  ghost predicate Consistent(reg: Registry) {
    forall n :: n in reg ==> reg[n].name == n
  }

  /** `p` is the registry's current entry for its name. */
  predicate Registered(p: Point, reg: Registry) {
    p.name in reg && reg[p.name] == p
  }

  /** The effect of emitting `node` on the registry: a point node is stored
      under its name (overwriting an earlier one); shapes change nothing. */
  function Step(reg: Registry, node: Node): (r: Registry)
    ensures r.Keys >= reg.Keys
    ensures forall n :: n in reg && (!node.PointNode? || n != node.point.name) ==> n in r && r[n] == reg[n]
    ensures node.PointNode? ==> Registered(node.point, r)
    ensures !node.PointNode? ==> r == reg
  {
    match node
    case PointNode(p) => reg[p.name := p]
    case _ => reg
  }

  /** Every point a shape or line node refers to is the registry's current
      entry for its name, with the arity of the node kind. */
  predicate Resolved(node: Node, reg: Registry) {
    match node
    case PointNode(_) => true
    case RectangleNode(ps) => |ps| == 4 && forall i :: 0 <= i < 4 ==> Registered(ps[i], reg)
    case TriangleNode(ps) => |ps| == 3 && forall i :: 0 <= i < 3 ==> Registered(ps[i], reg)
    case LineNode(a, b) => Registered(a, reg) && Registered(b, reg)
  }

  /** The points a node refers to, in the order written. */
  function Refs(node: Node): seq<Point> {
    match node
    case PointNode(_) => []
    case RectangleNode(ps) => ps
    case TriangleNode(ps) => ps
    case LineNode(a, b) => [a, b]
  }

  /** The registry after emitting `nodes` in order, starting from `reg`. */
  function RegistryAfter(reg: Registry, nodes: seq<Node>): Registry
    decreases |nodes|
  {
    if nodes == [] then reg else RegistryAfter(Step(reg, nodes[0]), nodes[1..])
  }

  /** A scene in which every node is resolved against the registry built by
      the nodes before it: definition before use. */
  predicate WellFormed(reg: Registry, nodes: seq<Node>)
    decreases |nodes|
  {
    nodes == [] || (Resolved(nodes[0], reg) && WellFormed(Step(reg, nodes[0]), nodes[1..]))
  }

  lemma {:induction false} StepKeepsConsistent(reg: Registry, node: Node)
    requires Consistent(reg)
    ensures Consistent(Step(reg, node))
  {
  }

  /** Every entry of the registry after a scene was already in the starting
      registry or is a point node of the scene; no key is ever removed. */
  lemma {:induction false} RegistryAfterEntries(reg: Registry, nodes: seq<Node>)
    ensures RegistryAfter(reg, nodes).Keys >= reg.Keys
    ensures forall n :: n in RegistryAfter(reg, nodes) ==>
      (n in reg && RegistryAfter(reg, nodes)[n] == reg[n]) ||
      PointNode(RegistryAfter(reg, nodes)[n]) in nodes
    decreases |nodes|
  {
    if nodes != [] {
      var reg' := Step(reg, nodes[0]);
      RegistryAfterEntries(reg', nodes[1..]);
      assert nodes == [nodes[0]] + nodes[1..];
      forall n | n in RegistryAfter(reg, nodes)
        ensures (n in reg && RegistryAfter(reg, nodes)[n] == reg[n]) ||
          PointNode(RegistryAfter(reg, nodes)[n]) in nodes
      {
        var v := RegistryAfter(reg, nodes)[n];
        if PointNode(v) !in nodes[1..] {
          assert n in reg' && v == reg'[n];
          if nodes[0].PointNode? && n == nodes[0].point.name {
            assert nodes[0] == PointNode(v);
          }
        }
      }
    }
  }

  /** In a well-formed scene started from an empty registry, every point a
      node refers to was emitted as a point node before it. */
  lemma {:induction false} WellFormedRefsPlacedEarlier(nodes: seq<Node>, k: nat, i: nat)
    requires WellFormed(map[], nodes)
    requires k < |nodes| && i < |Refs(nodes[k])|
    ensures PointNode(Refs(nodes[k])[i]) in nodes[..k]
  {
    WellFormedPrefix(map[], nodes, k);
    var reg := RegistryAfter(map[], nodes[..k]);
    var p := Refs(nodes[k])[i];
    assert Registered(p, reg);
    RegistryAfterEntries(map[], nodes[..k]);
  }

  /** Splitting a well-formed scene: node `k` is resolved against the registry
      its predecessors built. */
  lemma {:induction false} WellFormedPrefix(reg: Registry, nodes: seq<Node>, k: nat)
    requires WellFormed(reg, nodes) && k < |nodes|
    ensures Resolved(nodes[k], RegistryAfter(reg, nodes[..k]))
    decreases k
  {
    if k > 0 {
      WellFormedPrefix(Step(reg, nodes[0]), nodes[1..], k - 1);
      assert nodes[..k][1..] == nodes[1..][..k - 1];
    }
  }
}
