/**
 * The Name token model (com.google.api.codegen.util.Name). Its tokenisers and
 * renderers are not part of this model: they are carried as function values
 * so that the core's contracts can say which of them receives which argument.
 */
module Names {

  /** An identifier as an ordered sequence of word pieces. */
  datatype Name = Name(pieces: seq<string>)

  /** The external parsers and renderers of Name used by the core. */
  datatype NameParsers = NameParsers(
    from: string -> Name,              // Name.from: lower_snake_case input
    anyCamel: string -> Name,          // Name.anyCamel: camel-case input of either case
    upperCamel: seq<string> -> Name,   // Name.upperCamel: UpperCamelCase pieces
    toUpperCamel: Name -> string)      // Name.toUpperCamel
}
