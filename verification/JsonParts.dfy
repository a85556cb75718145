/** A JSON tree taken apart: its parts in document order, which together are the tree. */
module JsonParts {
  import opened Json

  datatype Step = Key(name: Text) | Index(i: nat)

  /** A value of the tree, a container without its content, and the way to it. */
  datatype Part = Part(path: seq<Step>, value: Json)

  /** A container without its content. */
  function Shell(j: Json): Json {
    match j
    case Obj(_) => Obj([])
    case Arr(_) => Arr([])
    case _ => j
  }

  function Parts(j: Json, path: seq<Step>): seq<Part> {
    [Part(path, Shell(j))]
    + match j
      case Obj(members) => MemberParts(members, path)
      case Arr(items) => ItemParts(items, 0, path)
      case _ => []
  }

  function PairParts(member: (Text, Json), path: seq<Step>): seq<Part> {
    Parts(member.1, path + [Key(member.0)])
  }

  function MemberParts(members: seq<(Text, Json)>, path: seq<Step>): seq<Part> {
    if members == [] then [] else PairParts(members[0], path) + MemberParts(members[1..], path)
  }

  function ItemParts(items: seq<Json>, i: nat, path: seq<Step>): seq<Part> {
    if items == [] then [] else Parts(items[0], path + [Index(i)]) + ItemParts(items[1..], i + 1, path)
  }

  lemma {:induction false} MemberPartsConcat(a: seq<(Text, Json)>, b: seq<(Text, Json)>, path: seq<Step>)
    ensures MemberParts(a + b, path) == MemberParts(a, path) + MemberParts(b, path)
    decreases |a|
  {
    if a == [] {
      assert a + b == b;
    } else {
      var first := PairParts(a[0], path);
      assert (a + b)[1..] == a[1..] + b;
      MemberPartsConcat(a[1..], b, path);
      assert first + (MemberParts(a[1..], path) + MemberParts(b, path)) == (first + MemberParts(a[1..], path)) + MemberParts(b, path);
    }
  }
}
