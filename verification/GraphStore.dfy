/** internal/graph/store.go: a graph whose writes are checked against the governing ontology. */
module GraphStores {
  import opened Wrappers
  import opened Ontologies

  datatype Provenance = Provenance(source: string, extractedAt: Option<int>)
  datatype Node = Node(id: string, entityType: string, caption: string, attributes: map<string, string>,
                       provenance: Provenance)
  datatype Edge = Edge(id: string, relation: string, subject: string, obj: string, provenance: Provenance)

  datatype Graph = Graph(ontology: Ontology, nodes: map<string, Node>, edges: map<string, Edge>)

  predicate ProvenanceOk(p: Provenance) {
    p.source != "" && p.extractedAt.Some?
  }

  predicate AttributesOk(et: EntityType, n: Node) {
    forall i :: 0 <= i < |et.attributes| && et.attributes[i].required ==> et.attributes[i].name in n.attributes
  }

  predicate NodeOk(o: Ontology, n: Node) {
    && n.id != "" && n.entityType != "" && Find(o.types, n.entityType) >= 0
    && n.caption != "" && ProvenanceOk(n.provenance)
    && AttributesOk(o.types[Find(o.types, n.entityType)], n)
  }

  /** The first relation with a name, or -1 when none has it. */
  function FindRelation(rs: seq<Relation>, name: string): (i: int)
    ensures -1 <= i < |rs|
    ensures i >= 0 ==> rs[i].name == name
    ensures i < 0 ==> forall r :: r in rs ==> r.name != name
  {
    if rs == [] then -1
    else if rs[0].name == name then 0
    else
      var i := FindRelation(rs[1..], name);
      assert forall r :: r in rs ==> r == rs[0] || r in rs[1..];
      if i < 0 then -1 else i + 1
  }

  /** Subclasses may stand in for the relation's domain and range. */
  predicate RelationValidFor(o: Ontology, relation: string, subjectType: string, objectType: string)
    requires Treelike(o)
  {
    var i := FindRelation(o.relations, relation);
    i >= 0 && IsA(o, subjectType, o.relations[i].domain) && IsA(o, objectType, o.relations[i].range)
  }

  predicate EdgeOk(o: Ontology, e: Edge, subjectType: string, objectType: string)
    requires Treelike(o)
  {
    && e.id != "" && e.relation != "" && e.subject != "" && e.obj != ""
    && RelationValidFor(o, e.relation, subjectType, objectType)
    && ProvenanceOk(e.provenance)
  }

  /** An edge whose endpoints exist and have types its relation allows. */
  predicate Fastened(g: Graph, e: Edge)
    requires Treelike(g.ontology)
  {
    && e.subject in g.nodes && e.obj in g.nodes
    && EdgeOk(g.ontology, e, g.nodes[e.subject].entityType, g.nodes[e.obj].entityType)
  }

  ghost predicate AllOk(g: Graph)
    requires Treelike(g.ontology)
  {
    && (forall id :: id in g.nodes ==> NodeOk(g.ontology, g.nodes[id]))
    && (forall id :: id in g.edges ==> Fastened(g, g.edges[id]))
  }

  // ---------------------------------------------------------------------------
  // The checked writes.

  predicate TakesNode(g: Graph, n: Node) {
    NodeOk(g.ontology, n) && n.id !in g.nodes
  }

  predicate TakesEdge(g: Graph, e: Edge)
    requires Treelike(g.ontology)
  {
    Fastened(g, e) && e.id !in g.edges
  }

  datatype Write = AddNode(node: Node) | AddEdge(edge: Edge)

  ghost function Written(g: Graph, w: Write): (r: Graph)
    requires Treelike(g.ontology)
    ensures r.ontology == g.ontology
  {
    match w
    case AddNode(n) => if TakesNode(g, n) then g.(nodes := g.nodes[n.id := n]) else g
    case AddEdge(e) => if TakesEdge(g, e) then g.(edges := g.edges[e.id := e]) else g
  }

  ghost function After(g: Graph, writes: seq<Write>): (r: Graph)
    requires Treelike(g.ontology)
    ensures r.ontology == g.ontology
    decreases |writes|
  {
    if writes == [] then g else Written(After(g, writes[..|writes| - 1]), writes[|writes| - 1])
  }

  lemma NodeKeepsFastened(g: Graph, n: Node, e: Edge)
    requires Treelike(g.ontology) && n.id !in g.nodes && Fastened(g, e)
    ensures Fastened(g.(nodes := g.nodes[n.id := n]), e)
  {
  }

  lemma NodeKeepsAllOk(g: Graph, n: Node)
    requires Treelike(g.ontology) && AllOk(g) && TakesNode(g, n)
    ensures AllOk(g.(nodes := g.nodes[n.id := n]))
  {
    var r := g.(nodes := g.nodes[n.id := n]);
    forall id | id in r.edges ensures Fastened(r, r.edges[id]) {
      NodeKeepsFastened(g, n, g.edges[id]);
    }
  }

  lemma EdgesAside(g: Graph, e: Edge, edges: map<string, Edge>)
    requires Treelike(g.ontology) && Fastened(g, e)
    ensures Fastened(g.(edges := edges), e)
  {
  }

  lemma EdgeKeepsAllOk(g: Graph, e: Edge)
    requires Treelike(g.ontology) && AllOk(g) && TakesEdge(g, e)
    ensures AllOk(g.(edges := g.edges[e.id := e]))
  {
    var r := g.(edges := g.edges[e.id := e]);
    forall id | id in r.edges ensures Fastened(r, r.edges[id]) {
      EdgesAside(g, r.edges[id], r.edges);
    }
  }

  lemma WriteKeepsAllOk(g: Graph, w: Write)
    requires Treelike(g.ontology) && AllOk(g)
    ensures AllOk(Written(g, w))
  {
    match w
    case AddNode(n) =>
      if TakesNode(g, n) {
        NodeKeepsAllOk(g, n);
      }
    case AddEdge(e) =>
      if TakesEdge(g, e) {
        EdgeKeepsAllOk(g, e);
      }
  }

  /** Every state reached from the empty graph by any writes passes the full check. */
  lemma {:induction false} ReachableIsAllOk(o: Ontology, writes: seq<Write>)
    requires Treelike(o)
    ensures AllOk(After(Graph(o, map[], map[]), writes))
    decreases |writes|
  {
    if writes == [] {
    } else {
      ReachableIsAllOk(o, writes[..|writes| - 1]);
      WriteKeepsAllOk(After(Graph(o, map[], map[]), writes[..|writes| - 1]), writes[|writes| - 1]);
    }
  }

  /** In such a state each edge's endpoint types climb declared subclass links to the relation's domain and range. */
  lemma EdgesRespectDomainAndRange(g: Graph, id: string)
    requires WellFormed(g.ontology) && Acyclic(g.ontology) && AllOk(g) && id in g.edges
    ensures var e := g.edges[id];
      var i := FindRelation(g.ontology.relations, e.relation);
      && i >= 0 && e.subject in g.nodes && e.obj in g.nodes
      && Reaches(g.ontology, g.nodes[e.subject].entityType, g.ontology.relations[i].domain)
      && Reaches(g.ontology, g.nodes[e.obj].entityType, g.ontology.relations[i].range)
  {
    var e := g.edges[id];
    assert Fastened(g, e);
    var r := g.ontology.relations[FindRelation(g.ontology.relations, e.relation)];
    IsAIsReaching(g.ontology, g.nodes[e.subject].entityType, r.domain);
    IsAIsReaching(g.ontology, g.nodes[e.obj].entityType, r.range);
  }

  /** A node enters exactly when its type is declared, and it is captioned, sourced and dated, complete and new. */
  lemma TakesNodeIff(g: Graph, n: Node)
    requires TypesDistinct(g.ontology.types)
    ensures TakesNode(g, n) <==>
      && n.id != "" && n.id !in g.nodes && n.caption != ""
      && n.provenance.source != "" && n.provenance.extractedAt.Some?
      && exists i :: 0 <= i < |g.ontology.types| && Completes(g.ontology.types[i], n)
  {
    var k := Find(g.ontology.types, n.entityType);
    if i :| 0 <= i < |g.ontology.types| && Completes(g.ontology.types[i], n) {
      FindFinds(g.ontology.types, i);
    }
    if TakesNode(g, n) {
      assert Completes(g.ontology.types[k], n);
    }
  }

  /** The node is of this type and has every attribute the type requires. */
  predicate Completes(t: EntityType, n: Node) {
    n.entityType == t.name && forall i :: 0 <= i < |t.attributes| ==>
      t.attributes[i].required ==> t.attributes[i].name in n.attributes
  }

  /** In every reachable state every node is complete for its type, and every edge joins two nodes. */
  lemma NodesAreComplete(o: Ontology, writes: seq<Write>, id: string)
    requires Treelike(o)
    ensures var g := After(Graph(o, map[], map[]), writes);
      && (id in g.nodes ==> exists i :: 0 <= i < |o.types| && Completes(o.types[i], g.nodes[id]))
      && (id in g.edges ==> g.edges[id].subject in g.nodes && g.edges[id].obj in g.nodes)
  {
    ReachableIsAllOk(o, writes);
    var g := After(Graph(o, map[], map[]), writes);
    if id in g.nodes {
      assert NodeOk(o, g.nodes[id]);
      assert Completes(o.types[Find(o.types, g.nodes[id].entityType)], g.nodes[id]);
    }
    if id in g.edges {
      assert Fastened(g, g.edges[id]);
    }
  }

  /** An edge enters exactly when its ends exist and their types climb to the domain and range of its relation. */
  lemma TakesEdgeIff(g: Graph, e: Edge, r: Relation)
    requires WellFormed(g.ontology) && Acyclic(g.ontology) && r in g.ontology.relations && r.name == e.relation
    ensures TakesEdge(g, e) <==>
      && e.id != "" && e.id !in g.edges && e.subject != "" && e.obj != ""
      && e.provenance.source != "" && e.provenance.extractedAt.Some?
      && e.subject in g.nodes && e.obj in g.nodes
      && Reaches(g.ontology, g.nodes[e.subject].entityType, r.domain)
      && Reaches(g.ontology, g.nodes[e.obj].entityType, r.range)
  {
    var i :| 0 <= i < |g.ontology.relations| && g.ontology.relations[i] == r;
    var k := FindRelation(g.ontology.relations, e.relation);
    assert k == i;
    if e.subject in g.nodes && e.obj in g.nodes {
      IsAIsReaching(g.ontology, g.nodes[e.subject].entityType, r.domain);
      IsAIsReaching(g.ontology, g.nodes[e.obj].entityType, r.range);
    }
  }

  // ---------------------------------------------------------------------------
  // The store.

  class Store {
    var ontology: Option<Ontology>
    var nodes: map<string, Node>
    var edges: map<string, Edge>

    constructor ()
      ensures ontology == None && nodes == map[] && edges == map[]
    {
      ontology, nodes, edges := None, map[], map[];
    }

    ghost predicate Governed()
      reads this`ontology
    {
      ontology.Some? ==> WellFormed(ontology.value) && Acyclic(ontology.value)
    }

    ghost function State(): Graph
      requires ontology.Some?
      reads this
    {
      Graph(ontology.value, nodes, edges)
    }

    method SetOntology(o: Ontology) returns (ok: bool)
      modifies this`ontology
      ensures ok <==> WellFormed(o)
      ensures ontology == if ok then Some(o) else old(ontology)
    {
      ok := Validate(o);
      if ok {
        ontology := Some(o);
      }
    }

    method InsertNode(n: Node) returns (ok: bool)
      requires Governed()
      modifies this`nodes
      ensures ontology.None? ==> !ok && nodes == old(nodes)
      ensures ontology.Some? ==> ok == TakesNode(old(State()), n) && State() == Written(old(State()), AddNode(n))
    {
      if ontology.None? || !NodeOk(ontology.value, n) {
        return false;
      }
      if n.id in nodes {
        return false;
      }
      nodes := nodes[n.id := n];
      return true;
    }

    method InsertEdge(e: Edge) returns (ok: bool)
      requires Governed()
      modifies this`edges
      ensures ontology.None? ==> !ok && edges == old(edges)
      ensures ontology.Some? ==> ok == TakesEdge(old(State()), e) && State() == Written(old(State()), AddEdge(e))
    {
      if ontology.None? {
        return false;
      }
      if e.subject !in nodes {
        return false;
      }
      var subject := nodes[e.subject];
      if e.obj !in nodes {
        return false;
      }
      var obj := nodes[e.obj];
      if !EdgeOk(ontology.value, e, subject.entityType, obj.entityType) {
        return false;
      }
      if e.id in edges {
        return false;
      }
      edges := edges[e.id := e];
      return true;
    }

    method ValidateAll() returns (ok: bool)
      requires Governed()
      ensures ok <==> ontology.Some? && AllOk(State())
    {
      if ontology.None? {
        return false;
      }
      var todo := nodes.Keys;
      while todo != {}
        invariant todo <= nodes.Keys && forall id :: id in nodes && id !in todo ==> NodeOk(ontology.value, nodes[id])
        decreases todo
      {
        var id :| id in todo;
        if !NodeOk(ontology.value, nodes[id]) {
          return false;
        }
        todo := todo - {id};
      }
      todo := edges.Keys;
      while todo != {}
        invariant todo <= edges.Keys && forall id :: id in edges && id !in todo ==> Fastened(State(), edges[id])
        decreases todo
      {
        var id :| id in todo;
        var e := edges[id];
        if e.subject !in nodes || e.obj !in nodes
           || !EdgeOk(ontology.value, e, nodes[e.subject].entityType, nodes[e.obj].entityType) {
          assert !Fastened(State(), edges[id]);
          return false;
        }
        assert Fastened(State(), edges[id]);
        todo := todo - {id};
      }
      return true;
    }

    /** Whether a node of this type belongs to the query: the type itself or one listed below it. */
    ghost predicate OfType(entityType: string, typeName: string)
      requires Governed()
      reads this`ontology
    {
      entityType == typeName || (ontology.Some? && Under(ontology.value, entityType, typeName))
    }

    /** Exactly the nodes whose type is the given one or, under an ontology, a subclass of it. */
    method NodesByType(typeName: string) returns (result: set<string>)
      requires Governed()
      ensures forall id :: id in result <==> id in nodes && OfType(nodes[id].entityType, typeName)
    {
      var typeSet := {typeName};
      if ontology.Some? {
        var types := SubClassesOf(ontology.value, typeName);
        typeSet := typeSet + set t | t in types;
        forall t ensures t in typeSet <==> OfType(t, typeName) {
          ListedIffUnder(ontology.value, t, typeName);
        }
      }
      result := {};
      var todo := nodes.Keys;
      while todo != {}
        invariant todo <= nodes.Keys
        invariant forall id :: id in result <==> id in nodes && id !in todo && nodes[id].entityType in typeSet
        decreases todo
      {
        var id :| id in todo;
        if nodes[id].entityType in typeSet {
          result := result + {id};
        }
        todo := todo - {id};
      }
    }
  }

  /** The nodes of a named type are those from whose type a chain of subclass links leads to that type. */
  lemma OfTypeIsReaching(o: Ontology, t: string, p: string)
    requires WellFormed(o) && Acyclic(o) && p != ""
    ensures (t == p || Under(o, t, p)) <==> Reaches(o, t, p)
  {
    IsAIsReaching(o, t, p);
  }
}
