/** The semantic translation of raw resource property values into the typed
    resource IR (src/ir/resources.rs), written as pure reference functions.
    The imperative translation in module ResourceTranslation is proved equal
    to these functions. */
module Resources {
  import opened Wrappers
  import opened Parser
  import opened Specifications
  import opened References

  /** The typed intermediate representation of a property value. */
  datatype ResourceIr =
    | Null
    | Bool(b: bool)
    | Number(n: Int64)
    | String(s: string)
    | Array(complexity: Complexity, items: seq<ResourceIr>)
    | Object(complexity: Complexity, properties: map<string, ResourceIr>)
    | If(condition: string, whenTrue: ResourceIr, whenFalse: ResourceIr)
    | Join(separator: string, operands: seq<ResourceIr>)
    | Ref(reference: Reference)
    | GetAtt(resourceName: string, attributeName: string)
    | Sub(fragments: seq<ResourceIr>)
    | Map(mapper: ResourceIr, first: ResourceIr, second: ResourceIr)

  /** The context carried through the recursion. */
  datatype ResourceTranslationInputs = ResourceTranslationInputs(
    parseTree: CloudformationParseTree,
    specification: Specification,
    complexity: Complexity,
    propertyType: Option<string>,
    resourceType: string)

  /** Everything the code generator needs to emit one resource. */
  datatype ResourceInstruction = ResourceInstruction(
    name: string,
    condition: Option<string>,
    resourceType: string,
    properties: map<string, ResourceIr>)

  /** The three collaborators whose code lies outside this model, as given
      total functions: the `Fn::Sub` tokenizer, the pseudo-parameter name
      table, and the rule that names the property type of a complexity. */
  datatype Collaborators = Collaborators(
    subParseTree: string -> Result<seq<SubValue>, string>,
    matchPseudoParameter: string -> Option<PseudoParameter>,
    fullPropertyName: (Complexity, string) -> Option<string>)

  /** Why a translation stops. The first six are the `TransmuteError`s that
      `translate_resource` returns; the others are the places where the source
      unwraps or indexes and so aborts the process. */
  datatype Error =
    | SubTemplateNotString
    | SubOverridesNotObject
    | SubParse(message: string)
    | GetAttNotString
    | IfConditionNotString
    | JoinSeparatorNotString
    | EmptySub
    | EmptyJoin
    | MissingPropertyType
    | UnknownPropertyType(typeName: string)
    | PropertyTypeWithoutProperties(typeName: string)
    | UnknownProperty(typeName: string, property: string)
    | UnknownResourceType(resourceType: string)
    | ResourceTypeWithoutProperties(resourceType: string)
    | UnknownResourceProperty(resourceType: string, property: string)

  /** The reference a symbol names: a pseudo parameter first, then a declared
      parameter, and otherwise the logical id of a resource. */
  function ResolveRef(x: string, tree: CloudformationParseTree, ext: Collaborators): (r: Reference)
    ensures r.name == x
  {
    match ext.matchPseudoParameter(x)
    case Some(p) => Reference(x, PseudoParameter(p))
    case None => if x in tree.parameters then Reference(x, Parameter) else Reference(x, LogicalId)
  }

  /** The top-level shape that a successful translation gives each raw shape. */
  predicate SameShape(v: ResourceValue, ir: ResourceIr) {
    match v
    case Null => ir.Null?
    case Bool(b) => ir == ResourceIr.Bool(b)
    case Number(n) => ir == ResourceIr.Number(n)
    case String(s) => ir == ResourceIr.String(s)
    case Array(items) => ir.Array? && |ir.items| == |items|
    case Object(entries) => ir.Object? && ir.properties.Keys == KeysOf(entries)
    case Sub(args) => ir.Sub? && |args| > 0 && args[0].String?
    case FindInMap(_, _, _) => ir.Map?
    case GetAtt(name, attribute) =>
      name.String? && attribute.String? && ir == ResourceIr.GetAtt(name.s, attribute.s)
    case If(condition, _, _) => condition.String? && ir.If? && ir.condition == condition.s
    case Join(operands) =>
      |operands| > 0 && operands[0].String? && ir.Join? &&
      ir.separator == operands[0].s && |ir.operands| == |operands| - 1
    case Ref(x) => ir.Ref? && ir.reference.name == x
  }

  /** The translation of one raw value under a context. */
  function Translate(v: ResourceValue, rt: ResourceTranslationInputs, ext: Collaborators): (r: Result<ResourceIr, Error>)
    decreases v, 1
  {
    match v
    case Null => Ok(ResourceIr.Null)
    case Bool(b) => Ok(ResourceIr.Bool(b))
    case Number(n) => Ok(ResourceIr.Number(n))
    case String(s) => Ok(ResourceIr.String(s))
    case Array(items) =>
      var irs :- TranslateRange(items, 0, |items|, rt, ext);
      Ok(ResourceIr.Array(rt.complexity, irs))
    case Object(entries) =>
      var m :- TranslateEntries(v, |entries|, rt, ext);
      Ok(ResourceIr.Object(rt.complexity, m))
    case Sub(args) =>
      if |args| == 0 then Err(EmptySub)
      else if !args[0].String? then Err(SubTemplateNotString)
      else
        var table :- SubOverrides(v, |args|, rt, ext);
        (match ext.subParseTree(args[0].s)
         case Err(message) => Err(SubParse(message))
         case Ok(fragments) => Ok(ResourceIr.Sub(ResolveFragments(fragments, table, rt, ext))))
    case FindInMap(mapper, first, second) =>
      var mapperIr :- Translate(mapper, rt, ext);
      var firstIr :- Translate(first, rt, ext);
      var secondIr :- Translate(second, rt, ext);
      Ok(ResourceIr.Map(mapperIr, firstIr, secondIr))
    case GetAtt(name, attribute) =>
      if !name.String? then Err(GetAttNotString)
      else if !attribute.String? then Err(GetAttNotString)
      else Ok(ResourceIr.GetAtt(name.s, attribute.s))
    case If(condition, whenTrue, whenFalse) =>
      if !condition.String? then Err(IfConditionNotString)
      else
        var trueIr :- Translate(whenTrue, rt, ext);
        var falseIr :- Translate(whenFalse, rt, ext);
        Ok(ResourceIr.If(condition.s, trueIr, falseIr))
    case Join(operands) =>
      if |operands| == 0 then Err(EmptyJoin)
      else if !operands[0].String? then Err(JoinSeparatorNotString)
      else
        var irs :- TranslateRange(operands, 1, |operands|, rt, ext);
        Ok(ResourceIr.Join(operands[0].s, irs))
    case Ref(x) => Ok(ResourceIr.Ref(ResolveRef(x, rt.parseTree, ext)))
  }

  /** The translations of items[lo..hi], in order, each under the same context;
      the first failing item decides the error. */
  function TranslateRange(items: seq<ResourceValue>, lo: nat, hi: nat, rt: ResourceTranslationInputs, ext: Collaborators): (r: Result<seq<ResourceIr>, Error>)
    requires lo <= hi <= |items|
    ensures r.Ok? ==> |r.value| == hi - lo
    decreases items, 0, hi
  {
    if hi == lo then Ok([])
    else
      var prev :- TranslateRange(items, lo, hi - 1, rt, ext);
      var x :- Translate(items[hi - 1], rt, ext);
      Ok(prev + [x])
  }

  /** The context under which the value of key `s` of an object is translated:
      the same context under Simple; under Complex, the rule of `s` in the
      current property type, whose complexity and full property name replace
      the current ones. */
  function EntryInputs(rt: ResourceTranslationInputs, s: string, ext: Collaborators): (r: Result<ResourceTranslationInputs, Error>)
    ensures r.Ok? ==>
      r.value.parseTree == rt.parseTree && r.value.specification == rt.specification &&
      r.value.resourceType == rt.resourceType
    ensures r.Ok? && rt.complexity.Complex? ==>
      r.value.propertyType == ext.fullPropertyName(r.value.complexity, rt.resourceType)
  {
    match rt.complexity
    case Simple(_) => Ok(rt)
    case Complex(_) =>
      if rt.propertyType.None? then Err(MissingPropertyType)
      else
        var typeName := rt.propertyType.value;
        if typeName !in rt.specification.propertyTypes then Err(UnknownPropertyType(typeName))
        else
          var rule := rt.specification.propertyTypes[typeName];
          if rule.properties.None? then Err(PropertyTypeWithoutProperties(typeName))
          else if s !in rule.properties.value then Err(UnknownProperty(typeName, s))
          else
            Ok(ChildInputs(rt, rule.properties.value[s], ext))
  }

  /** The context in which a key whose rule has complexity c is translated
      under a Complex parent: that complexity and its full property name, with
      the parent's template, specification and resource type. */
  function ChildInputs(rt: ResourceTranslationInputs, c: Complexity, ext: Collaborators): ResourceTranslationInputs {
    rt.(complexity := c, propertyType := ext.fullPropertyName(c, rt.resourceType))
  }

  /** The translated map of the first k entries of object v, each value under
      the context its key selects; a later key overwrites an earlier one. */
  function TranslateEntries(v: ResourceValue, k: nat, rt: ResourceTranslationInputs, ext: Collaborators): (r: Result<map<string, ResourceIr>, Error>)
    requires v.Object? && k <= |v.entries|
    decreases v, 0, k
  {
    if k == 0 then Ok(map[])
    else
      var m :- TranslateEntries(v, k - 1, rt, ext);
      var (s, value) := v.entries[k - 1];
      var child :- EntryInputs(rt, s, ext);
      var ir :- Translate(value, child, ext);
      Ok(m[s := ir])
  }

  /** The override table after the override objects args[1..j] of `Fn::Sub` v
      have been merged in order. */
  function SubOverrides(v: ResourceValue, j: nat, rt: ResourceTranslationInputs, ext: Collaborators): (r: Result<map<string, ResourceIr>, Error>)
    requires v.Sub? && 1 <= j <= |v.args|
    decreases v, 0, j
  {
    if j == 1 then Ok(map[])
    else
      var table :- SubOverrides(v, j - 1, rt, ext);
      var obj := v.args[j - 1];
      if !obj.Object? then Err(SubOverridesNotObject)
      else OverrideEntries(obj, |obj.entries|, rt, ext, table)
  }

  /** The keys of the override objects args[1..j]. */
  function OverrideKeys(args: seq<ResourceValue>, j: nat): set<string>
    requires 1 <= j <= |args|
  {
    if j == 1 then {}
    else OverrideKeys(args, j - 1) + (if args[j - 1].Object? then KeysOf(args[j - 1].entries) else {})
  }

  /** The table t0 with the first k entries of override object obj inserted in
      order, each value translated under the ambient context. */
  function OverrideEntries(obj: ResourceValue, k: nat, rt: ResourceTranslationInputs, ext: Collaborators, t0: map<string, ResourceIr>): (r: Result<map<string, ResourceIr>, Error>)
    requires obj.Object? && k <= |obj.entries|
    decreases obj, 0, k
  {
    if k == 0 then Ok(t0)
    else
      var t :- OverrideEntries(obj, k - 1, rt, ext, t0);
      var (key, value) := obj.entries[k - 1];
      var ir :- Translate(value, rt, ext);
      Ok(t[key := ir])
  }

  /** The IR of one `Fn::Sub` fragment: literal text as a String; a variable as
      its override if there is one, else as a reference to the symbol. */
  function FragmentIr(f: SubValue, table: map<string, ResourceIr>, rt: ResourceTranslationInputs, ext: Collaborators): ResourceIr {
    match f
    case Literal(text) => ResourceIr.String(text)
    case Variable(x) => if x in table then table[x] else ResourceIr.Ref(ResolveRef(x, rt.parseTree, ext))
  }

  /** One IR per fragment, in the template's order. */
  function ResolveFragments(fragments: seq<SubValue>, table: map<string, ResourceIr>, rt: ResourceTranslationInputs, ext: Collaborators): (r: seq<ResourceIr>)
    ensures |r| == |fragments|
    ensures forall i :: 0 <= i < |fragments| && fragments[i].Variable? && fragments[i].name !in table ==>
      r[i].Ref? && r[i].reference.name == fragments[i].name
  {
    seq(|fragments|, i requires 0 <= i < |fragments| => FragmentIr(fragments[i], table, rt, ext))
  }

  /** The context of a top-level property whose rule has complexity c. */
  function InitialInputs(tree: CloudformationParseTree, spec: Specification, c: Complexity, resourceType: string, ext: Collaborators): ResourceTranslationInputs {
    ResourceTranslationInputs(tree, spec, c, ext.fullPropertyName(c, resourceType), resourceType)
  }

  /** The translated map of the first k properties of resource res. */
  function TranslateProperties(res: ResourceDecl, k: nat, tree: CloudformationParseTree, spec: Specification, ext: Collaborators): (r: Result<map<string, ResourceIr>, Error>)
    requires k <= |res.properties| && res.resourceType in spec.resourceTypes
  {
    if k == 0 then Ok(map[])
    else
      var props :- TranslateProperties(res, k - 1, tree, spec, ext);
      var (name, prop) := res.properties[k - 1];
      var rules := spec.resourceTypes[res.resourceType].properties;
      if rules.None? then Err(ResourceTypeWithoutProperties(res.resourceType))
      else if name !in rules.value then Err(UnknownResourceProperty(res.resourceType, name))
      else
        var ir :- Translate(prop, InitialInputs(tree, spec, rules.value[name], res.resourceType, ext), ext);
        Ok(props[name := ir])
  }

  /** The instruction for one declared resource. */
  function InstructionFor(res: ResourceDecl, tree: CloudformationParseTree, spec: Specification, ext: Collaborators): (r: Result<ResourceInstruction, Error>)
    ensures r.Ok? ==>
      r.value.name == res.name && r.value.condition == res.condition && r.value.resourceType == res.resourceType
  {
    if res.resourceType !in spec.resourceTypes then Err(UnknownResourceType(res.resourceType))
    else
      var props :- TranslateProperties(res, |res.properties|, tree, spec, ext);
      Ok(ResourceInstruction(res.name, res.condition, res.resourceType, props))
  }

  /** The instructions for the first n declared resources, in order. The
      source's driver has no error return: every `Err` here, whatever its
      kind, stands for the process abort at one of its unwraps, with the
      error that caused it. */
  function Instructions(tree: CloudformationParseTree, n: nat, spec: Specification, ext: Collaborators): (r: Result<seq<ResourceInstruction>, Error>)
    requires n <= |tree.resources|
    ensures r.Ok? ==> |r.value| == n
  {
    if n == 0 then Ok([])
    else
      var prev :- Instructions(tree, n - 1, spec, ext);
      var ins :- InstructionFor(tree.resources[n - 1], tree, spec, ext);
      Ok(prev + [ins])
  }
}
