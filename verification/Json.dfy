/** JSON values and the JsonCpp accessors the node uses; None stands for a thrown exception. */
module JsonValues {
  import opened Basics

  type JsonInt = x: int | -0x8000_0000_0000_0000 <= x < 0x1_0000_0000_0000_0000

  // Object members are listed in key order, the order in which JsonCpp iterates them.
  datatype Json =
    | Null
    | Str(text: string)
    | Num(number: JsonInt)
    | Arr(items: seq<Json>)
    | Obj(members: seq<(string, Json)>)

  function Lookup(members: seq<(string, Json)>, name: string): Json {
    if members == [] then Null
    else if members[0].0 == name then members[0].1
    else Lookup(members[1..], name)
  }

  lemma {:induction false} LookupAt(members: seq<(string, Json)>, name: string, i: nat)
    requires i < |members| && members[i].0 == name
    requires forall j :: 0 <= j < i ==> members[j].0 != name
    ensures Lookup(members, name) == members[i].1
  {
    if i > 0 {
      LookupAt(members[1..], name, i - 1);
    }
  }

  // value[name]: absent members and members of null read as null, other values throw.
  function Field(value: Json, name: string): Option<Json> {
    match value
    case Null => Some(Null)
    case Obj(members) => Some(Lookup(members, name))
    case _ => None
  }

  // The elements a range-based for visits: array items or member values, none for a scalar.
  function Elements(value: Json): seq<Json> {
    match value
    case Arr(items) => items
    case Obj(members) => seq(|members|, i requires 0 <= i < |members| => members[i].1)
    case _ => []
  }

  function AsString(value: Json): Option<string> {
    match value
    case Null => Some("")
    case Str(text) => Some(text)
    case Num(n) => Some(if n < 0 then "-" + Decimal(-n) else Decimal(n))
    case _ => None
  }

  function AsUInt64(value: Json): Option<u64> {
    match value
    case Null => Some(0)
    case Num(n) => if n < 0 then None else Some(n)
    case _ => None
  }

  function AsUInt(value: Json): Option<nat> {
    match AsUInt64(value)
    case Some(n) => if n < TWO_32 then Some(n) else None
    case None => None
  }

  function StringField(value: Json, name: string): Option<string> {
    var field :- Field(value, name);
    AsString(field)
  }

  function UInt64Field(value: Json, name: string): Option<u64> {
    var field :- Field(value, name);
    AsUInt64(field)
  }

  function UIntField(value: Json, name: string): Option<nat> {
    var field :- Field(value, name);
    AsUInt(field)
  }
}
