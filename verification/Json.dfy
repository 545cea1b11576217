/** JSON values as the programs see them after parsing: an object lists its members in enumeration order. */
module Json {
  import opened Prelude

  datatype Json =
    | Null
    | Bool(b: bool)
    | Num(n: real)
    | Str(s: string)
    | Arr(items: seq<Json>)
    | Obj(members: seq<Member>)

  datatype Member = Member(name: string, value: Json)

  function IndexOf(members: seq<Member>, name: string): (i: nat)
    ensures i <= |members|
    ensures i < |members| ==> members[i].name == name
    ensures i == |members| ==> forall j :: 0 <= j < |members| ==> members[j].name != name
  {
    if members == [] || members[0].name == name then 0 else 1 + IndexOf(members[1..], name)
  }

  predicate Has(members: seq<Member>, name: string) { IndexOf(members, name) < |members| }

  function Get(members: seq<Member>, name: string): Option<Json> {
    var i := IndexOf(members, name);
    if i < |members| then Some(members[i].value) else None
  }
}
