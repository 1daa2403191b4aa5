/** The parsed template as the translation engine sees it: raw property values,
    the fragments of a parsed `Fn::Sub` string, and the resource and parameter
    declarations of the template. */
module Parser {
  import opened Wrappers

  /** Rust's `i64`, the payload of a number literal. */
  newtype Int64 = x: int | -0x8000_0000_0000_0000 <= x < 0x8000_0000_0000_0000

  /** A raw property value. Objects are key/value pairs in iteration order. No
      assumption is made that keys are distinct: a later pair with the same key
      overwrites an earlier one wherever a map is built from them. */
  datatype ResourceValue =
    | Null
    | Bool(b: bool)
    | Number(n: Int64)
    | String(s: string)
    | Array(items: seq<ResourceValue>)
    | Object(entries: seq<(string, ResourceValue)>)
    | Sub(args: seq<ResourceValue>)
    | FindInMap(mapper: ResourceValue, first: ResourceValue, second: ResourceValue)
    | GetAtt(name: ResourceValue, attribute: ResourceValue)
    | If(condition: ResourceValue, whenTrue: ResourceValue, whenFalse: ResourceValue)
    | Join(operands: seq<ResourceValue>)
    | Ref(symbol: string)

  /** One fragment of a parsed `Fn::Sub` template string: literal text or `${Name}`. */
  datatype SubValue = Literal(text: string) | Variable(name: string)

  /** A declared resource: its logical id, type, optional condition and properties. */
  datatype ResourceDecl = ResourceDecl(
    name: string,
    resourceType: string,
    condition: Option<string>,
    properties: seq<(string, ResourceValue)>)

  /** The parts of a parsed template that translation consults: the resources in
      declaration order and the names of the declared parameters. */
  datatype CloudformationParseTree = CloudformationParseTree(
    resources: seq<ResourceDecl>,
    parameters: seq<string>)

  /** The keys of the first k object entries. */
  function KeysUpTo(entries: seq<(string, ResourceValue)>, k: nat): set<string>
    requires k <= |entries|
  {
    if k == 0 then {} else KeysUpTo(entries, k - 1) + {entries[k - 1].0}
  }

  /** The keys of a sequence of object entries. */
  function KeysOf(entries: seq<(string, ResourceValue)>): set<string> {
    KeysUpTo(entries, |entries|)
  }
}
