/**
 * Scalar values as they come out of a parsed JSON document and as they are
 * stored as Neo4j properties: the two coincide for the loader (it passes JSON
 * scalars straight through as Cypher parameters). Numbers are exact: a JSON
 * float is a `real`, not an IEEE double.
 */
module Json {

  datatype Value =
    | Null
    | Bool(b: bool)
    | Int(i: int)
    | Float(x: real)
    | Str(s: string)
}
