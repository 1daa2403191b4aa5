/** The translation as the source performs it: `translate_resource` with its
    accumulation loops, `find_ref` with its scan over the parameters, and the
    `translates_resources` driver. Each method is proved to compute the
    reference function of module Resources. */
module ResourceTranslation {
  import opened Wrappers
  import opened Parser
  import opened Specifications
  import opened References
  import opened Resources
  import opened Folds

  /** Classifies symbol x: a pseudo parameter wins over a declared parameter of
      the same name, and any other symbol is taken for a logical id. */
  method FindRef(x: string, tree: CloudformationParseTree, ext: Collaborators) returns (r: Reference)
    ensures r.name == x
    ensures ext.matchPseudoParameter(x).Some? ==>
      r.origin == PseudoParameter(ext.matchPseudoParameter(x).value)
    ensures ext.matchPseudoParameter(x).None? ==>
      (r.origin == Parameter <==> x in tree.parameters) &&
      (r.origin == LogicalId <==> x !in tree.parameters)
    ensures r == ResolveRef(x, tree, ext)
  {
    var pseudo := ext.matchPseudoParameter(x);
    if pseudo.Some? {
      return Reference(x, PseudoParameter(pseudo.value));
    }
    var i := 0;
    while i < |tree.parameters|
      invariant 0 <= i <= |tree.parameters|
      invariant x !in tree.parameters[..i]
    {
      if tree.parameters[i] == x {
        return Reference(x, Parameter);
      }
      i := i + 1;
    }
    assert tree.parameters[..i] == tree.parameters;
    return Reference(x, LogicalId);
  }

  /** Translates one raw value under context rt, stopping at the first error. */
  method TranslateResource(v: ResourceValue, rt: ResourceTranslationInputs, ext: Collaborators) returns (r: Result<ResourceIr, Error>)
    ensures r == Translate(v, rt, ext)
    decreases v, 2
  {
    match v
    case Null => r := Ok(ResourceIr.Null);
    case Bool(b) => r := Ok(ResourceIr.Bool(b));
    case Number(n) => r := Ok(ResourceIr.Number(n));
    case String(s) => r := Ok(ResourceIr.String(s));
    case Array(_) => r := TranslateArray(v, rt, ext);
    case Object(_) => r := TranslateObject(v, rt, ext);
    case Sub(_) => r := TranslateSub(v, rt, ext);
    case FindInMap(mapper, first, second) =>
      var mapperIr :- TranslateResource(mapper, rt, ext);
      var firstIr :- TranslateResource(first, rt, ext);
      var secondIr :- TranslateResource(second, rt, ext);
      r := Ok(ResourceIr.Map(mapperIr, firstIr, secondIr));
    case GetAtt(name, attribute) =>
      if !name.String? {
        return Err(GetAttNotString);
      }
      if !attribute.String? {
        return Err(GetAttNotString);
      }
      r := Ok(ResourceIr.GetAtt(name.s, attribute.s));
    case If(condition, whenTrue, whenFalse) =>
      if !condition.String? {
        return Err(IfConditionNotString);
      }
      var trueIr :- TranslateResource(whenTrue, rt, ext);
      var falseIr :- TranslateResource(whenFalse, rt, ext);
      r := Ok(ResourceIr.If(condition.s, trueIr, falseIr));
    case Join(_) => r := TranslateJoin(v, rt, ext);
    case Ref(x) =>
      var reference := FindRef(x, rt.parseTree, ext);
      r := Ok(ResourceIr.Ref(reference));
  }

  /** The array case: each element under the same context, pushed in order. */
  method TranslateArray(v: ResourceValue, rt: ResourceTranslationInputs, ext: Collaborators) returns (r: Result<ResourceIr, Error>)
    requires v.Array?
    ensures r == Translate(v, rt, ext)
    decreases v, 1
  {
    var arrayIr: seq<ResourceIr> := [];
    var i := 0;
    while i < |v.items|
      invariant 0 <= i <= |v.items|
      invariant TranslateRange(v.items, 0, i, rt, ext) == Ok(arrayIr)
    {
      var x := TranslateResource(v.items[i], rt, ext);
      if x.Err? {
        RangeSticky(v.items, 0, i + 1, |v.items|, rt, ext);
        return Err(x.error);
      }
      arrayIr := arrayIr + [x.value];
      i := i + 1;
    }
    r := Ok(ResourceIr.Array(rt.complexity, arrayIr));
  }

  /** The object case: each value under the context its key selects, inserted
      into the new map in order. */
  method TranslateObject(v: ResourceValue, rt: ResourceTranslationInputs, ext: Collaborators) returns (r: Result<ResourceIr, Error>)
    requires v.Object?
    ensures r == Translate(v, rt, ext)
    decreases v, 1
  {
    var newHash: map<string, ResourceIr> := map[];
    var i := 0;
    while i < |v.entries|
      invariant 0 <= i <= |v.entries|
      invariant TranslateEntries(v, i, rt, ext) == Ok(newHash)
    {
      var (s, value) := v.entries[i];
      var child := EntryInputs(rt, s, ext);
      if child.Err? {
        EntriesSticky(v, i + 1, |v.entries|, rt, ext);
        return Err(child.error);
      }
      var propertyIr := TranslateResource(value, child.value, ext);
      if propertyIr.Err? {
        EntriesSticky(v, i + 1, |v.entries|, rt, ext);
        return Err(propertyIr.error);
      }
      newHash := newHash[s := propertyIr.value];
      i := i + 1;
    }
    r := Ok(ResourceIr.Object(rt.complexity, newHash));
  }

  /** The `Fn::Sub` case: check the template, merge the override objects,
      parse the template and resolve each fragment. A variable without an
      override is resolved by `ResolveRef`, the function that `FindRef` is
      proved equal to: the source calls the same `find_ref` here and for
      `Ref`. */
  method TranslateSub(v: ResourceValue, rt: ResourceTranslationInputs, ext: Collaborators) returns (r: Result<ResourceIr, Error>)
    requires v.Sub?
    ensures r == Translate(v, rt, ext)
    decreases v, 1
  {
    if |v.args| == 0 {
      return Err(EmptySub);
    }
    if !v.args[0].String? {
      return Err(SubTemplateNotString);
    }
    var template := v.args[0].s;
    var excessMap :- MergeOverrides(v, rt, ext);
    var vars := ext.subParseTree(template);
    if vars.Err? {
      return Err(SubParse(vars.error));
    }
    r := Ok(ResourceIr.Sub(ResolveFragments(vars.value, excessMap, rt, ext)));
  }

  /** Merges the override objects that follow the template of `Fn::Sub` v, in
      order; an argument that is not an object is an error. */
  method MergeOverrides(v: ResourceValue, rt: ResourceTranslationInputs, ext: Collaborators) returns (r: Result<map<string, ResourceIr>, Error>)
    requires v.Sub? && |v.args| > 0
    ensures r == SubOverrides(v, |v.args|, rt, ext)
    decreases v, 0
  {
    var excessMap: map<string, ResourceIr> := map[];
    var j := 1;
    while j < |v.args|
      invariant 1 <= j <= |v.args|
      invariant SubOverrides(v, j, rt, ext) == Ok(excessMap)
    {
      var obj := v.args[j];
      SubOverridesStep(v, j + 1, rt, ext);
      if !obj.Object? {
        SubOverridesSticky(v, j + 1, |v.args|, rt, ext);
        return Err(SubOverridesNotObject);
      }
      var merged := InsertOverrides(obj, excessMap, rt, ext);
      if merged.Err? {
        SubOverridesSticky(v, j + 1, |v.args|, rt, ext);
        return Err(merged.error);
      }
      excessMap := merged.value;
      j := j + 1;
    }
    r := Ok(excessMap);
  }

  /** Inserts the entries of one `Fn::Sub` override object into the table, in
      order, each value translated under the ambient context. */
  method InsertOverrides(obj: ResourceValue, table: map<string, ResourceIr>, rt: ResourceTranslationInputs, ext: Collaborators) returns (r: Result<map<string, ResourceIr>, Error>)
    requires obj.Object?
    ensures r == OverrideEntries(obj, |obj.entries|, rt, ext, table)
    decreases obj, 0
  {
    var excessMap := table;
    var k := 0;
    while k < |obj.entries|
      invariant 0 <= k <= |obj.entries|
      invariant OverrideEntries(obj, k, rt, ext, table) == Ok(excessMap)
    {
      var (key, value) := obj.entries[k];
      var valueIr := TranslateResource(value, rt, ext);
      if valueIr.Err? {
        OverrideEntriesSticky(obj, k + 1, |obj.entries|, rt, ext, table);
        return Err(valueIr.error);
      }
      excessMap := excessMap[key := valueIr.value];
      k := k + 1;
    }
    r := Ok(excessMap);
  }

  /** The `Fn::Join` case: a string separator, then every later operand under
      the same context, pushed in order. */
  method TranslateJoin(v: ResourceValue, rt: ResourceTranslationInputs, ext: Collaborators) returns (r: Result<ResourceIr, Error>)
    requires v.Join?
    ensures r == Translate(v, rt, ext)
    decreases v, 1
  {
    if |v.operands| == 0 {
      return Err(EmptyJoin);
    }
    if !v.operands[0].String? {
      return Err(JoinSeparatorNotString);
    }
    var irs: seq<ResourceIr> := [];
    var i := 1;
    while i < |v.operands|
      invariant 1 <= i <= |v.operands|
      invariant TranslateRange(v.operands, 1, i, rt, ext) == Ok(irs)
    {
      var resourceIr := TranslateResource(v.operands[i], rt, ext);
      if resourceIr.Err? {
        RangeSticky(v.operands, 1, i + 1, |v.operands|, rt, ext);
        return Err(resourceIr.error);
      }
      irs := irs + [resourceIr.value];
      i := i + 1;
    }
    r := Ok(ResourceIr.Join(v.operands[0].s, irs));
  }

  /** Builds one instruction per declared resource, in declaration order; any
      failure (a missing specification entry or a failed translation) aborts
      the whole batch, as the source's unwraps do: an `Err` result is that
      process abort, carrying its cause. */
  method TranslatesResources(tree: CloudformationParseTree, spec: Specification, ext: Collaborators) returns (r: Result<seq<ResourceInstruction>, Error>)
    ensures r == Instructions(tree, |tree.resources|, spec, ext)
  {
    var resourceInstructions: seq<ResourceInstruction> := [];
    var i := 0;
    while i < |tree.resources|
      invariant 0 <= i <= |tree.resources|
      invariant Instructions(tree, i, spec, ext) == Ok(resourceInstructions)
    {
      var resource := tree.resources[i];
      if resource.resourceType !in spec.resourceTypes {
        InstructionsSticky(tree, i + 1, |tree.resources|, spec, ext);
        return Err(UnknownResourceType(resource.resourceType));
      }
      var resourceSpec := spec.resourceTypes[resource.resourceType].properties;
      var props: map<string, ResourceIr> := map[];
      var k := 0;
      while k < |resource.properties|
        invariant 0 <= k <= |resource.properties|
        invariant TranslateProperties(resource, k, tree, spec, ext) == Ok(props)
      {
        var (name, prop) := resource.properties[k];
        if resourceSpec.None? {
          PropertyFailureAborts(tree, i, k, spec, ext, resourceInstructions);
          return Err(ResourceTypeWithoutProperties(resource.resourceType));
        }
        if name !in resourceSpec.value {
          PropertyFailureAborts(tree, i, k, spec, ext, resourceInstructions);
          return Err(UnknownResourceProperty(resource.resourceType, name));
        }
        var complexity := resourceSpec.value[name];
        var propertyType := ext.fullPropertyName(complexity, resource.resourceType);
        var inputs := ResourceTranslationInputs(tree, spec, complexity, propertyType, resource.resourceType);
        var ir := TranslateResource(prop, inputs, ext);
        if ir.Err? {
          PropertyFailureAborts(tree, i, k, spec, ext, resourceInstructions);
          return Err(ir.error);
        }
        props := props[name := ir.value];
        k := k + 1;
      }
      resourceInstructions := resourceInstructions +
        [ResourceInstruction(resource.name, resource.condition, resource.resourceType, props)];
      i := i + 1;
    }
    r := Ok(resourceInstructions);
  }
}
