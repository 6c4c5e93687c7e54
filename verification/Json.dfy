/** Decoded JSON values, and the parse and print pair that the programs' own JSON library gives them. */
module Json {
  import opened Wrappers
  import opened Text

  /** `JFraction` is any number that is not an integer. */
  datatype Json =
    | JNull
    | JBool(b: bool)
    | JInt(n: int)
    | JFraction(x: real)
    | JString(s: string)
    | JArray(items: seq<Json>)
    | JObject(fields: map<string, Json>)

  /** A field of an object, if it has it. */
  function Member(fields: map<string, Json>, name: string): Option<Json> {
    if name in fields then Some(fields[name]) else None
  }

  datatype JsonText = JsonText(print_: Json -> string, parse: string -> Option<Json>)

  /** A text on one line, with no space at either end. */
  predicate Compact(t: string) {
    t != "" && '\n' !in t && '\r' !in t && !IsSpace(t[0]) && !IsSpace(t[|t| - 1])
  }

  /** A value without fractions, whose text forms are countable and exact. */
  predicate Plain(j: Json) {
    match j
    case JFraction(_) => false
    case JArray(items) => forall i :: 0 <= i < |items| ==> Plain(items[i])
    case JObject(fields) => forall k :: k in fields ==> Plain(fields[k])
    case _ => true
  }

  /** What is used of `JSON.stringify` and `JSON.parse`: plain values read back, and their text is compact. */
  ghost predicate Lawful(c: JsonText) {
    forall j :: Plain(j) ==> c.parse(c.print_(j)) == Some(j) && Compact(c.print_(j))
  }
}
