/** JSON documents: scalars, arrays and objects whose members keep their enumeration order. */
module JsonTrees {

  datatype Json<+A, +K> = Atom(atom: A) | Arr(items: seq<Json<A, K>>) | Obj(members: seq<Member<A, K>>)

  datatype Member<+A, +K> = Member(key: K, value: Json<A, K>)
}

/** Documents as the API and the redactor handle them. */
module ApiTrees {
  import opened JsonTrees

  /** Opaque stands for a value outside JSON, such as a Date. */
  datatype Scalar = Null | Bool(b: bool) | Num(text: string) | Str(s: string) | Opaque(ref: nat)

  type Tree = Json<Scalar, string>

  type TreeMember = Member<Scalar, string>
}
