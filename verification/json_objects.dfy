/**
 The path operations as setValueByPath and removeFieldByPath of pkg/integration/processors.go perform them: on nested
 maps that are changed in place.  Each walk is tied to the function on value trees in JsonPath.
 */
module JsonObjects {
  import opened JsonPath
  import opened Strings

  class JsonObject {
    var fields: map<string, Node>
    ghost var repr: set<JsonObject>

    constructor ()
      ensures fields == map[] && repr == {this} && Valid(this) && View(this) == map[]
    {
      fields, repr := map[], {this};
    }
  }

  datatype Node = Plain(value: Json) | Nested(obj: JsonObject)

  // ----- Trees of objects -----

  ghost function NodeRepr(n: Node): set<JsonObject>
    reads if n.Nested? then {n.obj} else {}
  {
    if n.Nested? then n.obj.repr else {}
  }

  /** A tree of objects: no object is reached in two ways, and `repr` covers all of it. */
  ghost predicate Valid(o: JsonObject)
    reads o, o.repr
    decreases o.repr, 0
  {
    o in o.repr && Forest(o.fields, o.repr - {o})
  }

  ghost predicate ValidNode(n: Node)
    reads if n.Nested? then {n.obj} else {}, NodeRepr(n)
    decreases NodeRepr(n), 1
  {
    if n.Nested? then Valid(n.obj) else !n.value.Object?
  }

  /** Fields that live within a set of objects and hold trees that do not meet. */
  ghost predicate Forest(fields: map<string, Node>, within: set<JsonObject>)
    reads within
    decreases within, 2
  {
    && (forall k <- fields :: fields[k].Nested? ==> fields[k].obj in within && fields[k].obj.repr <= within)
    && (forall k <- fields :: ValidNode(fields[k]))
    && (forall k, l :: k in fields && l in fields && k != l ==> NodeRepr(fields[k]) !! NodeRepr(fields[l]))
  }

  // ----- What a tree looks like -----

  ghost function View(o: JsonObject): Fields
    requires Valid(o)
    reads o, o.repr
    decreases o.repr, 0
  {
    ViewOf(o.fields, o.repr - {o})
  }

  ghost function NodeView(n: Node): Json
    requires ValidNode(n)
    reads if n.Nested? then {n.obj} else {}, NodeRepr(n)
    decreases NodeRepr(n), 1
  {
    if n.Nested? then Object(View(n.obj)) else n.value
  }

  ghost function ViewOf(fields: map<string, Node>, within: set<JsonObject>): Fields
    requires Forest(fields, within)
    reads within
    decreases within, 2
  {
    map k | k in fields :: NodeView(fields[k])
  }

  /** Whether a field is there, and whether it is an object, is the same in the tree and in its view. */
  lemma SameShape(o: JsonObject, part: string)
    requires Valid(o)
    ensures o in o.repr && Forest(o.fields, o.repr - {o}) && View(o) == ViewOf(o.fields, o.repr - {o})
    ensures View(o).Keys == o.fields.Keys
    ensures part in o.fields ==> ValidNode(o.fields[part]) && View(o)[part] == NodeView(o.fields[part])
    ensures part in o.fields ==> (o.fields[part].Nested? <==> View(o)[part].Object?)
    ensures part in o.fields ==> NodeRepr(o.fields[part]) <= o.repr - {o}
  {
  }

  // ----- One field and the rest -----

  lemma RootIsCovered(n: Node)
    requires ValidNode(n) && n.Nested?
    ensures n.obj in NodeRepr(n)
  {
  }

  lemma WithoutField(fields: map<string, Node>, within: set<JsonObject>, part: string)
    requires Forest(fields, within)
    ensures var taken := if part in fields then NodeRepr(fields[part]) else {};
            && Forest(fields - {part}, within - taken)
            && ViewOf(fields - {part}, within - taken) == ViewOf(fields, within) - {part}
  {
    var rest := fields - {part};
    forall k | k in rest && rest[k].Nested? ensures rest[k].obj in NodeRepr(rest[k]) { RootIsCovered(rest[k]); }
    hide Valid, ValidNode, NodeView;
    assert part in fields ==> forall k <- rest :: NodeRepr(fields[k]) !! NodeRepr(fields[part]);
  }

  lemma WithField(rest: map<string, Node>, within: set<JsonObject>, part: string, n: Node, all: set<JsonObject>)
    requires Forest(rest, within) && part !in rest && ValidNode(n) && NodeRepr(n) !! within
    requires NodeRepr(n) + within <= all
    ensures Forest(rest[part := n], all)
    ensures ViewOf(rest[part := n], all) == ViewOf(rest, within)[part := NodeView(n)]
  {
    if n.Nested? {
      RootIsCovered(n);
    }
    var fields := rest[part := n];
    hide Valid, ValidNode, NodeView;
    forall k, l | k in fields && l in fields && k != l ensures NodeRepr(fields[k]) !! NodeRepr(fields[l]) {
      assert k != part ==> NodeRepr(rest[k]) <= within;
      assert l != part ==> NodeRepr(rest[l]) <= within;
    }
    assert Forest(fields, all);
  }

  lemma DropField(fields: map<string, Node>, within: set<JsonObject>, part: string)
    requires Forest(fields, within)
    ensures Forest(fields - {part}, within) && ViewOf(fields - {part}, within) == ViewOf(fields, within) - {part}
  {
    hide Valid, ValidNode, NodeView;
    assert Forest(fields - {part}, within);
  }

  lemma Rooted(o: JsonObject)
    requires o in o.repr && Forest(o.fields, o.repr - {o})
    ensures Valid(o) && View(o) == ViewOf(o.fields, o.repr - {o})
  {
  }

  lemma RootIsOutside(n: Node, o: JsonObject)
    requires ValidNode(n) && o !in NodeRepr(n)
    ensures n.Nested? ==> n.obj != o
  {
  }

  lemma PutAfterDelete(data: Fields, part: string, v: Json)
    ensures (data - {part})[part := v] == data[part := v]
  {
  }

  lemma WriteCases(data: Fields, parts: seq<string>, value: Json)
    requires |parts| > 1
    ensures parts[0] !in data ==> Write(data[parts[0] := Object(map[])], parts, value) == Write(data, parts, value)
    ensures parts[0] in data && !data[parts[0]].Object? ==> Write(data, parts, value) == data
    ensures parts[0] in data && data[parts[0]].Object? ==>
              Write(data, parts, value) == data[parts[0] := Object(Write(data[parts[0]].fields, parts[1..], value))]
  {
    assert data[parts[0] := Object(map[])][parts[0] := Object(Write(map[], parts[1..], value))]
           == data[parts[0] := Object(Write(map[], parts[1..], value))];
  }

  /** The fields after a put are a forest that does not contain the object itself, so the put leaves it alone. */
  lemma Prepared(o: JsonObject, part: string, value: Node)
    requires Valid(o) && ValidNode(value) && NodeRepr(value) !! o.repr
    ensures var fields, below := o.fields[part := value], o.repr + NodeRepr(value) - {o};
            o in o.repr && Forest(fields, below) && ViewOf(fields, below) == View(o)[part := NodeView(value)]
  {
    var rest, below := o.fields - {part}, o.repr - {o};
    DropField(o.fields, below, part);
    PutAfterDelete(View(o), part, NodeView(value));
    assert o.fields[part := value] == rest[part := value];
    hide Forest, ViewOf, ValidNode, NodeView, NodeRepr;
    WithField(rest, below, part, value, o.repr + NodeRepr(value) - {o});
  }

  // ----- Changes in place -----

  method PutField(o: JsonObject, part: string, value: Node)
    requires Valid(o) && ValidNode(value) && NodeRepr(value) !! o.repr
    modifies o
    ensures Valid(o) && View(o) == old(View(o))[part := old(NodeView(value))]
    ensures o.fields == old(o.fields)[part := value]
    ensures o.repr == old(o.repr + NodeRepr(value))
  {
    ghost var all := o.repr + NodeRepr(value);
    Prepared(o, part, value);
    hide *;
    o.fields := o.fields[part := value];
    o.repr := all;
    Rooted(o);
  }

  method AttachEmpty(o: JsonObject, part: string)
    requires Valid(o)
    modifies o
    ensures Valid(o) && View(o) == old(View(o))[part := Object(map[])]
    ensures o.fields.Keys == old(o.fields).Keys + {part} && o.fields[part].Nested?
    ensures old(o.repr) <= o.repr && fresh(o.repr - old(o.repr))
  {
    var c := new JsonObject();
    assert ValidNode(Nested(c)) && NodeRepr(Nested(c)) == {c} && NodeView(Nested(c)) == Object(map[]);
    hide *;
    PutField(o, part, Nested(c));
  }

  method DeleteField(o: JsonObject, part: string)
    requires Valid(o)
    modifies o`fields
    ensures Valid(o) && View(o) == old(View(o)) - {part}
  {
    DropField(o.fields, o.repr - {o}, part);
    hide Forest, ViewOf;
    o.fields := o.fields - {part};
  }

  /** Changes below one nested object: the rest of the tree keeps its shape and its look. */
  lemma TakeApart(o: JsonObject, part: string, c: JsonObject)
    requires Valid(o) && part in o.fields && o.fields[part] == Nested(c)
    ensures o in o.repr && Valid(c) && c.repr <= o.repr - {o} && View(o).Keys == o.fields.Keys
    ensures View(o)[part] == Object(View(c))
    ensures Forest(o.fields - {part}, o.repr - {o} - c.repr)
    ensures ViewOf(o.fields - {part}, o.repr - {o} - c.repr) == View(o) - {part}
  {
    WithoutField(o.fields, o.repr - {o}, part);
    assert ValidNode(o.fields[part]) && NodeRepr(o.fields[part]) == c.repr;
  }

  lemma PutTogether(o: JsonObject, part: string, c: JsonObject, was: Fields, within: set<JsonObject>, below: set<JsonObject>)
    requires part in o.fields && o.fields[part] == Nested(c) && Valid(c)
    requires c.repr + within <= below && c.repr !! within
    requires Forest(o.fields - {part}, within) && ViewOf(o.fields - {part}, within) == was - {part}
    ensures Forest(o.fields, below) && ViewOf(o.fields, below) == was[part := Object(View(c))]
  {
    var rest, n := o.fields - {part}, Nested(c);
    assert ValidNode(n) && NodeRepr(n) == c.repr && NodeView(n) == Object(View(c));
    assert rest[part := n] == o.fields;
    hide Valid, View, Forest, ViewOf, ValidNode, NodeView, NodeRepr;
    WithField(rest, within, part, n, below);
    PutAfterDelete(was, part, NodeView(n));
  }

  /** A part of a set that grows by elements from outside stays apart from the rest of the set. */
  lemma GrownApart<T>(o: T, all: set<T>, was: set<T>, now: set<T>)
    requires o in all && was <= all - {o} && forall x <- now :: x in was || x !in all
    ensures now + (all - {o} - was) <= all + now - {o} && now !! (all - {o} - was)
  {
  }

  /** Takes the objects that a nested tree has gained into the cover of the tree above it. */
  ghost method Adopt(o: JsonObject, part: string, c: JsonObject, was: Fields, before: set<JsonObject>)
    requires part in o.fields && o.fields[part] == Nested(c) && Valid(c)
    requires o in o.repr && before <= o.repr - {o} && forall x <- c.repr :: x in before || x !in o.repr
    requires Forest(o.fields - {part}, o.repr - {o} - before)
    requires ViewOf(o.fields - {part}, o.repr - {o} - before) == was - {part}
    modifies o`repr
    ensures Valid(o) && View(o) == was[part := old(Object(View(c)))] && o.repr == old(o.repr) + old(c.repr)
  {
    var all := o.repr + c.repr;
    GrownApart(o, o.repr, before, c.repr);
    PutTogether(o, part, c, was, o.repr - {o} - before, all - {o});
    hide *;
    o.repr := all;
    Rooted(o);
  }

  method SetBelow(o: JsonObject, parts: seq<string>, value: Node)
    requires Valid(o) && ValidNode(value) && NodeRepr(value) !! o.repr && |parts| > 1
    requires parts[0] in o.fields && o.fields[parts[0]].Nested?
    modifies o.repr
    ensures Valid(o) && View(o) == Write(old(View(o)), parts, old(NodeView(value)))
    ensures old(o.repr) <= o.repr && fresh(o.repr - old(o.repr) - old(NodeRepr(value)))
    decreases |parts|, 0
  {
    var c := o.fields[parts[0]].obj;
    TakeApart(o, parts[0], c);
    WriteCases(View(o), parts, NodeView(value));
    hide *;
    SetAlong(c, parts[1..], value);
    Adopt(o, parts[0], c, old(View(o)), old(c.repr));
  }

  /** Walks along the path and changes the last object in place; missing objects are attached on the way. */
  method SetAlong(o: JsonObject, parts: seq<string>, value: Node)
    requires Valid(o) && ValidNode(value) && NodeRepr(value) !! o.repr && parts != []
    modifies o.repr
    ensures Valid(o) && View(o) == Write(old(View(o)), parts, old(NodeView(value)))
    ensures old(o.repr) <= o.repr && fresh(o.repr - old(o.repr) - old(NodeRepr(value)))
    decreases |parts|, 1
  {
    SameShape(o, parts[0]);
    RootIsOutside(value, o);
    if |parts| == 1 {
      hide Valid, View, Forest, ViewOf, ValidNode, NodeView, NodeRepr;
      PutField(o, parts[0], value);
      return;
    }
    WriteCases(View(o), parts, NodeView(value));
    hide *;
    if parts[0] !in o.fields {
      AttachEmpty(o, parts[0]);
    }
    if o.fields[parts[0]].Nested? {
      SetBelow(o, parts, value);
    }
  }

  method SetValueByPath(data: JsonObject, path: string, value: Node)
    requires Valid(data) && ValidNode(value) && NodeRepr(value) !! data.repr
    modifies data.repr
    ensures Valid(data) && View(data) == Set(old(View(data)), path, old(NodeView(value)))
  {
    if path == "" {
      return;
    }
    SetAlong(data, Split(path, '.'), value);
  }

  method RemoveAlong(o: JsonObject, parts: seq<string>)
    requires Valid(o) && parts != []
    modifies o.repr
    ensures Valid(o) && View(o) == Erase(old(View(o)), parts) && o.repr == old(o.repr)
    decreases |parts|
  {
    SameShape(o, parts[0]);
    if |parts| == 1 {
      DeleteField(o, parts[0]);
      return;
    }
    if parts[0] in o.fields && o.fields[parts[0]].Nested? {
      var c := o.fields[parts[0]].obj;
      TakeApart(o, parts[0], c);
      ghost var within := o.repr - {o} - c.repr;
      hide Valid, View, Forest, ViewOf, ValidNode, NodeView;
      RemoveAlong(c, parts[1..]);
      PutTogether(o, parts[0], c, old(View(o)), within, o.repr - {o});
      Rooted(o);
    }
  }

  method RemoveFieldByPath(data: JsonObject, path: string)
    requires Valid(data)
    modifies data.repr
    ensures Valid(data) && View(data) == Remove(old(View(data)), path)
  {
    if path == "" {
      return;
    }
    RemoveAlong(data, Split(path, '.'));
  }
}
