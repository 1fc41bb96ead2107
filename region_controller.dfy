/** The region table handlers: the list filter, lookup by id, create with
    de-duplication, update of name and activity, and delete guarded by
    children; plus the plain insert setRegion performs. */
module RegionController {
  import opened Common
  import opened RegionModel

  /** A parent clause of the list filter: none, a given parent, or `parent: null`. */
  datatype ParentClause = AnyParent | ParentIs(id: Id) | NoParent

  /** The list filter: an optional type name and a parent clause. */
  datatype RegionQuery = RegionQuery(typeName: Option<string>, parent: ParentClause)

  predicate QueryMatches(q: RegionQuery, n: RegionNode)
  {
    && (q.typeName.Some? ==> TypeName(n.rtype) == q.typeName.value)
    && match q.parent
       case AnyParent => true
       case ParentIs(id) => n.parent == Some(id)
       case NoParent => n.parent.None?
  }

  /** getAll: the filter built from `type` and `parent`. A given parent wins;
      without one, asking for regions means top-level nodes only. */
  method BuildQuery(typeName: string, parent: string) returns (q: RegionQuery)
    ensures forall n :: QueryMatches(q, n) <==>
              && (typeName != "" ==> TypeName(n.rtype) == typeName)
              && (if parent != "" then n.parent == Some(parent) else typeName == "region" ==> n.parent.None?)
  {
    q := RegionQuery(None, AnyParent);
    if typeName != "" { q := q.(typeName := Some(typeName)); }
    if parent != "" {
      q := q.(parent := ParentIs(parent));
    } else if typeName == "region" {
      q := q.(parent := NoParent);
    }
  }

  /** `Region.create` of a node: the saved node, or the 500 its validation or
      the unique index raises. */
  function InsertStep(nodes: map<Id, RegionNode>, name: string, rtype: RegionType, parent: Option<Id>)
    : (r: Result<RegionNode>)
    ensures r.Err? ==> r.error == ServerError
    ensures r.Ok? <==> Trim(name) != "" && !KeyTaken(nodes, NewNode(Trim(name), rtype, parent))
    ensures r.Ok? ==> r.value == NewNode(Trim(name), rtype, parent)
    ensures r.Ok? ==> RequiredTrimmed(r.value.name) && !KeyTaken(nodes, r.value)
  {
    var node := NewNode(Trim(name), rtype, parent);
    if !RequiredTrimmed(node.name) then Err(ServerError)
    else if KeyTaken(nodes, node) then Err(ServerError)
    else Ok(node)
  }

  /** create: the 400 checks, the duplicate lookup on (trimmed name, type,
      parent or null), then the insert. The parent is stored as given: neither
      its existence nor its level is checked. */
  function CreateStep(nodes: map<Id, RegionNode>, name: string, typeName: string, parent: string)
    : (r: Result<RegionNode>)
    ensures r == Err(MissingFields) <==> name == "" || typeName == ""
    ensures r == Err(Duplicate) <==>
              && name != "" && typeName != ""
              && exists id :: id in nodes && nodes[id].name == Trim(name) && TypeName(nodes[id].rtype) == typeName
                              && nodes[id].parent == IdOrNull(parent)
    ensures r.Ok? ==> ParseType(typeName).Some? && r.value == NewNode(Trim(name), ParseType(typeName).value, IdOrNull(parent))
    ensures r.Ok? ==> RequiredTrimmed(r.value.name) && !KeyTaken(nodes, r.value)
  {
    if name == "" || typeName == "" then Err(MissingFields)
    else if exists id :: id in nodes && nodes[id].name == Trim(name) && TypeName(nodes[id].rtype) == typeName
                         && nodes[id].parent == IdOrNull(parent) then
      Err(Duplicate)
    else match ParseType(typeName)
      case None => Err(ServerError)
      case Some(t) => InsertStep(nodes, name, t, IdOrNull(parent))
  }

  /** The three ways create goes once both fields are given. */
  lemma CreateStepCases(nodes: map<Id, RegionNode>, name: string, typeName: string, parent: string)
    requires name != "" && typeName != ""
    ensures var dup := exists id :: id in nodes && nodes[id].name == Trim(name) && TypeName(nodes[id].rtype) == typeName
                                    && nodes[id].parent == IdOrNull(parent);
            CreateStep(nodes, name, typeName, parent) ==
              if dup then Err(Duplicate)
              else if ParseType(typeName).None? then Err(ServerError)
              else InsertStep(nodes, name, ParseType(typeName).value, IdOrNull(parent))
  {
  }

  /** The duplicate lookup and the unique index agree: once the lookup finds
      nothing, the insert succeeds unless the name is blank or the type unknown. */
  lemma CreateOkIff(nodes: map<Id, RegionNode>, name: string, typeName: string, parent: string)
    requires name != "" && typeName != ""
    ensures CreateStep(nodes, name, typeName, parent).Ok? <==>
              && Trim(name) != "" && ParseType(typeName).Some?
              && !KeyTaken(nodes, NewNode(Trim(name), ParseType(typeName).value, IdOrNull(parent)))
  {
    CreateStepCases(nodes, name, typeName, parent);
    var t := ParseType(typeName);
    if t.Some? {
      var key := NewNode(Trim(name), t.value, IdOrNull(parent));
      if KeyTaken(nodes, key) {
        var id :| id in nodes && SameKey(nodes[id], key);
        assert TypeName(nodes[id].rtype) == typeName;
      }
      if exists id :: id in nodes && nodes[id].name == Trim(name) && TypeName(nodes[id].rtype) == typeName
                      && nodes[id].parent == IdOrNull(parent) {
        var id :| id in nodes && nodes[id].name == Trim(name) && TypeName(nodes[id].rtype) == typeName
                  && nodes[id].parent == IdOrNull(parent);
        ParseTypeName(nodes[id].rtype);
        assert SameKey(nodes[id], key);
      }
    }
  }

  /** A node can be created under a parent id the table does not hold, at
      any level: neither the parent's existence nor its type is looked at. */
  lemma ParentNotChecked(nodes: map<Id, RegionNode>, name: string, t: RegionType, parent: Id)
    requires RequiredTrimmed(name) && parent != "" && parent !in nodes
    requires forall id | id in nodes :: nodes[id].parent != Some(parent)
    ensures CreateStep(nodes, name, TypeName(t), parent) == Ok(NewNode(name, t, Some(parent)))
  {
    TrimFixesTrimmed(name);
    ParseTypeName(t);
  }

  /** update: only the name (trimmed) and isActive change; a blank name or a
      key another node holds fails on save. */
  function UpdateStep(nodes: map<Id, RegionNode>, id: Id, name: Option<string>, isActive: Option<bool>)
    : (r: Result<RegionNode>)
    ensures r == Err(NotFound) <==> id !in nodes
    ensures r.Err? ==> r.error in {NotFound, ServerError}
    ensures r.Ok? ==>
              && r.value.rtype == nodes[id].rtype && r.value.parent == nodes[id].parent
              && r.value.name == (if name.Some? then Trim(name.value) else nodes[id].name)
              && r.value.isActive == (if isActive.Some? then isActive.value else nodes[id].isActive)
    ensures r.Ok? ==> RequiredTrimmed(r.value.name) && !KeyTakenByOther(nodes, id, r.value)
  {
    if id !in nodes then Err(NotFound)
    else
      var node := nodes[id];
      var updated := node.(name := if name.Some? then Trim(name.value) else node.name,
                           isActive := if isActive.Some? then isActive.value else node.isActive);
      if !RequiredTrimmed(updated.name) then Err(ServerError)
      else if KeyTakenByOther(nodes, id, updated) then Err(ServerError)
      else Ok(updated)
  }

  /** A successful update keeps the table valid. */
  lemma UpdateKeepsValid(nodes: map<Id, RegionNode>, id: Id, name: Option<string>, isActive: Option<bool>)
    requires TableValid(nodes) && UpdateStep(nodes, id, name, isActive).Ok?
    ensures TableValid(nodes[id := UpdateStep(nodes, id, name, isActive).value])
  {
    ReplaceKeepsValid(nodes, id, UpdateStep(nodes, id, name, isActive).value);
  }

  /** A successful create keeps the table valid. */
  lemma CreateKeepsValid(nodes: map<Id, RegionNode>, newId: Id, name: string, typeName: string, parent: string)
    requires TableValid(nodes) && newId !in nodes && CreateStep(nodes, name, typeName, parent).Ok?
    ensures TableValid(nodes[newId := CreateStep(nodes, name, typeName, parent).value])
  {
    AddKeepsValid(nodes, newId, CreateStep(nodes, name, typeName, parent).value);
  }

  /** Some stored node has `id` as its parent. */
  predicate HasChild(nodes: map<Id, RegionNode>, id: Id)
  {
    exists c :: c in nodes && nodes[c].parent == Some(id)
  }

  /** remove: 404 for an absent node, 400 while any node has it as parent. */
  function RemoveCheck(nodes: map<Id, RegionNode>, id: Id): (o: Outcome)
    ensures o == Fail(NotFound) <==> id !in nodes
    ensures o == Fail(HasChildren) <==> id in nodes && HasChild(nodes, id)
    ensures o.Pass? ==> forall c | c in nodes - {id} :: (nodes - {id})[c].parent != Some(id)
  {
    if id !in nodes then Fail(NotFound)
    else if HasChild(nodes, id) then Fail(HasChildren)
    else Pass
  }

  /** The region collection. */
  class RegionTable {
    var nodes: map<Id, RegionNode>

    ghost predicate Valid()
      reads this
    {
      TableValid(nodes)
    }

    constructor ()
      ensures nodes == map[] && Valid()
    {
      nodes := map[];
    }

    /** getById. */
    function GetById(id: Id): (r: Result<RegionNode>)
      reads this
      ensures r.Err? <==> id !in nodes
      ensures r.Err? ==> r.error == NotFound
      ensures r.Ok? ==> r.value == nodes[id]
    {
      if id in nodes then Ok(nodes[id]) else Err(NotFound)
    }

    /** `Region.create`. `newId` is the id the database assigns. */
    method Insert(newId: Id, name: string, rtype: RegionType, parent: Option<Id>) returns (r: Result<RegionNode>)
      requires Valid() && newId !in nodes
      modifies this
      ensures Valid()
      ensures r == InsertStep(old(nodes), name, rtype, parent)
      ensures nodes == if r.Ok? then old(nodes)[newId := r.value] else old(nodes)
    {
      var node := NewNode(Trim(name), rtype, parent);
      if node.name == "" {
        return Err(ServerError);
      }
      if exists id :: id in nodes && SameKey(nodes[id], node) {
        return Err(ServerError);
      }
      AddKeepsValid(nodes, newId, node);
      nodes := nodes[newId := node];
      return Ok(node);
    }

    /** POST /api/regions. */
    method Create(newId: Id, name: string, typeName: string, parent: string) returns (r: Result<RegionNode>)
      requires Valid() && newId !in nodes
      modifies this
      ensures Valid()
      ensures r == CreateStep(old(nodes), name, typeName, parent)
      ensures nodes == if r.Ok? then old(nodes)[newId := r.value] else old(nodes)
    {
      if name == "" || typeName == "" {
        return Err(MissingFields);
      }
      var parentRef := IdOrNull(parent);
      var trimmed := Trim(name);
      var existing := exists id :: id in nodes && nodes[id].name == trimmed && TypeName(nodes[id].rtype) == typeName
                                   && nodes[id].parent == parentRef;
      CreateStepCases(nodes, name, typeName, parent);
      if existing {
        return Err(Duplicate);
      }
      var rtype := ParseType(typeName);
      if rtype.None? {
        return Err(ServerError);
      }
      r := Insert(newId, name, rtype.value, parentRef);
    }

    /** PUT /api/regions/:id. */
    method Update(id: Id, name: Option<string>, isActive: Option<bool>) returns (r: Result<RegionNode>)
      requires Valid()
      modifies this
      ensures Valid()
      ensures r == UpdateStep(old(nodes), id, name, isActive)
      ensures nodes == if r.Ok? then old(nodes)[id := r.value] else old(nodes)
    {
      if id !in nodes {
        return Err(NotFound);
      }
      var node := nodes[id];
      if name.Some? { node := node.(name := Trim(name.value)); }
      if isActive.Some? { node := node.(isActive := isActive.value); }
      if node.name == "" {
        return Err(ServerError);
      }
      if exists other :: other in nodes && other != id && SameKey(nodes[other], node) {
        return Err(ServerError);
      }
      ReplaceKeepsValid(nodes, id, node);
      nodes := nodes[id := node];
      return Ok(node);
    }

    /** DELETE /api/regions/:id. */
    method Remove(id: Id) returns (o: Outcome)
      requires Valid()
      modifies this
      ensures Valid()
      ensures o == RemoveCheck(old(nodes), id)
      ensures nodes == if o.Pass? then old(nodes) - {id} else old(nodes)
    {
      if id !in nodes {
        return Fail(NotFound);
      }
      var children := exists c :: c in nodes && nodes[c].parent == Some(id);
      if children {
        return Fail(HasChildren);
      }
      RemoveKeepsValid(nodes, id);
      nodes := nodes - {id};
      return Pass;
    }
  }
}
