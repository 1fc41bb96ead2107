/** The Region schema: a node of the administrative tree (region, district,
    neighborhood, street) with an optional parent, and the table invariant the
    schema enforces on save: a required trimmed name and a unique
    (name, type, parent) key. */
module RegionModel {
  import opened Common

  datatype RegionType = RegionLevel | DistrictLevel | NeighborhoodLevel | StreetLevel

  function TypeName(t: RegionType): string
  {
    match t
    case RegionLevel => "region"
    case DistrictLevel => "district"
    case NeighborhoodLevel => "neighborhood"
    case StreetLevel => "street"
  }

  /** The enum validator. */
  function ParseType(s: string): (r: Option<RegionType>)
    ensures r.Some? ==> TypeName(r.value) == s
  {
    if s == "region" then Some(RegionLevel)
    else if s == "district" then Some(DistrictLevel)
    else if s == "neighborhood" then Some(NeighborhoodLevel)
    else if s == "street" then Some(StreetLevel)
    else None
  }

  lemma ParseTypeName(t: RegionType)
    ensures ParseType(TypeName(t)) == Some(t)
  {
  }

  /** A Region document. No parent is the schema's `parent: null`. */
  datatype RegionNode = RegionNode(name: string, rtype: RegionType, parent: Option<Id>, isActive: bool)

  /** A new node with the schema default `isActive: true`. */
  function NewNode(name: string, rtype: RegionType, parent: Option<Id>): RegionNode
  {
    RegionNode(name, rtype, parent, true)
  }

  /** Two nodes with the same unique-index key. */
  predicate SameKey(a: RegionNode, b: RegionNode)
  {
    a.name == b.name && a.rtype == b.rtype && a.parent == b.parent
  }

  /** Some stored node already has n's key. */
  predicate KeyTaken(nodes: map<Id, RegionNode>, n: RegionNode)
  {
    exists id :: id in nodes && SameKey(nodes[id], n)
  }

  /** Some stored node other than `self` has n's key. */
  predicate KeyTakenByOther(nodes: map<Id, RegionNode>, self: Id, n: RegionNode)
  {
    exists id :: id in nodes && id != self && SameKey(nodes[id], n)
  }

  /** What every save leaves true of the collection: each name is required and
      trimmed, and no two nodes share a key. */
  ghost predicate TableValid(nodes: map<Id, RegionNode>)
  {
    && (forall id | id in nodes :: RequiredTrimmed(nodes[id].name))
    && (forall a, b | a in nodes && b in nodes && a != b :: !SameKey(nodes[a], nodes[b]))
  }

  /** Adding a node whose key is free keeps the table valid. */
  lemma {:induction false} AddKeepsValid(nodes: map<Id, RegionNode>, id: Id, n: RegionNode)
    requires TableValid(nodes) && id !in nodes && RequiredTrimmed(n.name) && !KeyTaken(nodes, n)
    ensures TableValid(nodes[id := n])
  {
    var m := nodes[id := n];
    forall a, b | a in m && b in m && a != b
      ensures !SameKey(m[a], m[b])
    {
      if a == id {
        assert m[b] == nodes[b];
      } else if b == id {
        assert m[a] == nodes[a];
      }
    }
  }

  /** Replacing a node by one whose key no other node has keeps the table valid. */
  lemma {:induction false} ReplaceKeepsValid(nodes: map<Id, RegionNode>, id: Id, n: RegionNode)
    requires TableValid(nodes) && id in nodes && RequiredTrimmed(n.name) && !KeyTakenByOther(nodes, id, n)
    ensures TableValid(nodes[id := n])
  {
    var m := nodes[id := n];
    forall a, b | a in m && b in m && a != b
      ensures !SameKey(m[a], m[b])
    {
      if a == id {
        assert m[b] == nodes[b];
        assert !SameKey(nodes[b], n);
      } else if b == id {
        assert m[a] == nodes[a];
        assert !SameKey(nodes[a], n);
      }
    }
  }

  /** Deleting a node keeps the table valid. */
  lemma RemoveKeepsValid(nodes: map<Id, RegionNode>, id: Id)
    requires TableValid(nodes)
    ensures TableValid(nodes - {id})
  {
  }
}
