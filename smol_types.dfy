/**
 * The shapes of the static types of the object language that the query
 * checker and the static table look at. The type hierarchy itself
 * (Type.kt) is not part of this model: only the constructors that the
 * modelled code tests for are distinguished.
 */
module SmolTypes {
  datatype Type =
    | BaseType(name: string)                           // a class or primitive type named by `name`
    | ComposedType(primary: Type, params: seq<Type>)   // `primary<params>`, such as List<Dog>
    | OtherType(name: string)                          // every other kind of type (generic, error, ...)

  /** How a type is rendered in a diagnostic: `List<Dog>` for a composed type. */
  function TypeText(t: Type): string
  {
    match t
    case BaseType(n) => n
    case OtherType(n) => n
    case ComposedType(p, ps) => TypeText(p) + "<" + ParamsText(ps) + ">"
  }

  function ParamsText(ps: seq<Type>): string
  {
    if ps == [] then ""
    else if |ps| == 1 then TypeText(ps[0])
    else TypeText(ps[0]) + ", " + ParamsText(ps[1..])
  }
}
