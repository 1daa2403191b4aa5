# Resource translation of a CloudFormation-to-IaC transpiler, in Dafny

This project models the semantic-translation engine of the noctilucent
transpiler: `src/ir/resources.rs`. The engine turns the raw property values of a
parsed CloudFormation template into a typed intermediate representation (IR)
that a code generator later emits. It has three parts, all modelled here:

- `translate_resource`, a recursive translation from a raw `ResourceValue` to a
  `ResourceIr`. It carries a translation context: the complexity tag of the
  current property, an optional property-type name, the owning resource type,
  the specification database and the parse tree. Scalars are copied. Arrays and
  `Simple` objects keep the context. Under `Complex`, each object key is looked
  up in the specification's property types and gets a child context. The
  intrinsic functions `Fn::If`, `Fn::GetAtt`, `Fn::Join`, `Fn::FindInMap`,
  `Fn::Sub` and `Ref` each have their own case.
- `find_ref`, which classifies a symbol: a pseudo parameter first, then a
  declared template parameter, otherwise the logical id of a resource.
- `translates_resources`, the driver. It builds one `ResourceInstruction` per
  declared resource, in declaration order.

Layout:

- `wrappers.dfy` holds `Option` and `Result`, with the failure-propagation
  members used by `:-`.
- `parser.dfy`, `specifications.dfy` and `references.dfy` hold the input types
  the engine reads. These are the raw values, the `Fn::Sub` fragments, the
  declared resources, the specification database (maps from type name to a
  property table of `Complexity` rules) and references with their origin.
- `resources.dfy` (module `Resources`) holds `ResourceIr`,
  `ResourceTranslationInputs`, `ResourceInstruction` and the error kinds. It
  also holds the pure reference definition of the translation: `Translate`,
  with one left-to-right fold function for each accumulation loop of the
  source.
- `translation.dfy` (module `ResourceTranslation`) has the imperative
  translation, with the same loops, early returns and accumulators as the
  source. Each method is proved to compute exactly the reference function.
- `folds.dfy` (module `Folds`) holds per-index facts about the folds. An error
  sticks once it occurs. A fold succeeds iff every step does. A map built by
  inserting in order keeps each key's last value and has exactly the inserted
  keys.
- `lemmas.dfy` (module `ResourceLemmas`) states what the source promises for
  each kind of value, in terms of the reference functions. Through the
  methods' postconditions these facts hold for the imperative code as well.

Design decisions:

- Inside `translate_resource`, where the source unwraps or indexes and so
  panics (lines 123-126, 149 and 241), the model returns an explicit error
  instead of adding a precondition. These errors are `EmptySub`, `EmptyJoin`,
  `MissingPropertyType`, `UnknownPropertyType`, `PropertyTypeWithoutProperties`
  and `UnknownProperty`. The other six kinds (`SubTemplateNotString`,
  `SubOverridesNotObject`, `SubParse`, `GetAttNotString`, `IfConditionNotString`,
  `JoinSeparatorNotString`) are the `TransmuteError`s it returns. Every input
  can therefore be translated, and the lemmas state which inputs give each
  error.
- `translates_resources` has no error return. Its unwraps abort the process:
  the resource-type lookup (line 59, modelled as `UnknownResourceType`), the
  property-table and property-name lookups (line 64, modelled as
  `ResourceTypeWithoutProperties` and `UnknownResourceProperty`), and the
  translation of each property (line 77). So any error of any kind, once it
  reaches the driver, aborts the whole batch. The model's driver (`Instructions`, `TranslatesResources`)
  returns `Err` with the first failure and no instructions. That `Err` stands
  for the abort, and its payload is the cause. Errors are not collected per
  resource.
- Raw objects are sequences of `(key, value)` pairs in iteration order. A later
  duplicate key overwrites an earlier one, as with `HashMap::insert`.
- Three collaborators whose code is not part of this model are given as total
  functions in a `Collaborators` value: the `Fn::Sub` tokenizer
  `sub_parse_tree`, `Reference::match_pseudo_parameter` and
  `Specification::full_property_name`. The results are proved for every choice
  of these functions.

## Model

| member | source | states |
|---|---|---|
| ResourceTranslation.FindRef | src/ir/resources.rs:262-276 | The reference is named `x`. A pseudo-parameter match gives `PseudoParameter(p)` even if a parameter has the same name. Otherwise the origin is `Parameter` iff `x` is a declared parameter, and `LogicalId` iff it is not. The loop with early return equals `ResolveRef`. |
| ResourceTranslation.TranslateResource | src/ir/resources.rs:91-260 | The dispatch over the value's shape returns exactly `Translate(v, rt, ext)`, errors included. |
| ResourceTranslation.TranslateArray | src/ir/resources.rs:100-111 | The push loop with `?` on each element equals the reference translation of the array. |
| ResourceTranslation.TranslateObject | src/ir/resources.rs:112-144 | The insert loop equals the reference translation of the object. Each key gets its child context (unchanged under Simple, looked up under Complex), and the first failing key stops the loop. |
| ResourceTranslation.TranslateSub | src/ir/resources.rs:145-187 | Empty argument list, non-string template, override merge, tokenizer failure and fragment mapping, in the source's order, equal the reference translation. |
| ResourceTranslation.MergeOverrides | src/ir/resources.rs:155-174 | Merging the override objects `args[1..]` in order, with an error for a non-object, gives the reference override table. |
| ResourceTranslation.InsertOverrides | src/ir/resources.rs:162-167 | Inserting one override object's translated entries into the table, in order, equals the reference fold. |
| ResourceTranslation.TranslateJoin | src/ir/resources.rs:240-257 | The empty-list panic, the separator check and the push loop over `x[1..]` equal the reference translation of the join. |
| ResourceTranslation.TranslatesResources | src/ir/resources.rs:52-89 | The nested loops over resources and properties equal `Instructions`, including the abort on the first failing property. |
| Resources.ResolveRef | src/ir/resources.rs:262-276 | The resolved reference carries the symbol's own name. |
| Resources.TranslateRange | src/ir/resources.rs:100-105 | A successful translation of a range of items has one IR per item. |
| Resources.EntryInputs | src/ir/resources.rs:115-133 | The child context borrows the parent's template, specification and resource type. Under Complex, its property type is the full property name of its own complexity. |
| Resources.Instructions | src/ir/resources.rs:54-88 | A successful batch has one instruction per resource. |
| Resources.InstructionFor | src/ir/resources.rs:55-86 | A successful instruction copies the resource's name, condition and type. Its other promises are stated by ResourceLemmas.InstructionFields. |
| Resources.ResolveFragments | src/ir/resources.rs:176-185 | One IR per parsed fragment. A variable without an override becomes a reference named by the variable. The full mapping is stated by ResourceLemmas.SubTranslation. |
| Resources.Translate | src/ir/resources.rs:91-260 | No ensures of its own. It is the reference definition that TranslateResource is proved equal to, and the ResourceLemmas members state its meaning case by case. |
| Resources.TranslateEntries | src/ir/resources.rs:113-138 | No ensures of its own. Stated by Folds.EntriesOk, Folds.EntryValue, Folds.EntriesKeys and Folds.EntriesFirstFailure. |
| Resources.SubOverrides | src/ir/resources.rs:155-174 | No ensures of its own. Stated by ResourceLemmas.SubOverridesTranslation and Folds.SubOverridesKeys. |
| Resources.OverrideEntries | src/ir/resources.rs:162-167 | No ensures of its own. Stated by Folds.OverridesOk, Folds.OverrideValue, Folds.OverrideKeeps, Folds.OverrideEntriesKeys and Folds.OverridesFirstFailure. |
| Resources.FragmentIr | src/ir/resources.rs:178-184 | No ensures of its own. Stated by ResourceLemmas.SubTranslation, ResourceLemmas.SubOrderScenario and ResourceLemmas.OverridePrecedenceScenario. |
| Resources.ChildInputs | src/ir/resources.rs:119-132 | No ensures of its own. It is the child context of Resources.EntryInputs, and ResourceLemmas.ComplexObjectTranslation states its use. |
| Resources.InitialInputs | src/ir/resources.rs:66-75 | No ensures of its own. ResourceLemmas.InstructionFields states it is the context of each top-level property. |
| Resources.TranslateProperties | src/ir/resources.rs:62-79 | No ensures of its own. Stated by Folds.PropertiesOk, Folds.PropertyValue, Folds.PropertiesKeys and Folds.PropertiesFirstFailure. |
| ResourceLemmas.ScalarLeaf | src/ir/resources.rs:96-99 | Null, Bool, Number and String become the identical IR leaf whatever the context. |
| ResourceLemmas.RangeTranslation | src/ir/resources.rs:100-105 | A range translates iff every item does. Result `i` is then item `i`'s translation. Otherwise the error is that of the first failing item. |
| ResourceLemmas.ArrayTranslation | src/ir/resources.rs:100-111 | An array gives `Array(ctx.complexity, irs)`, with one IR per element in order, each under the same context. It fails iff an element fails, with the first failure's error. |
| ResourceLemmas.JoinTranslation | src/ir/resources.rs:240-257 | An empty list panics and a non-string separator is an error. Otherwise the result is `Join(sep, irs)` with `irs[i]` the translation of `x[i+1]`, and it succeeds iff every later operand translates. Otherwise the error is that of the first failing later operand. |
| ResourceLemmas.JoinOfSeparatorOnly | src/ir/resources.rs:248-256 | A join holding only its separator gives an empty operand list, not an error. |
| ResourceLemmas.FindInMapTranslation | src/ir/resources.rs:188-197 | The result is `Map` of the three operands under the same context. It fails iff an operand fails, and the first failing operand (mapper, then first key, then second key) gives the error. |
| ResourceLemmas.IfTranslation | src/ir/resources.rs:222-239 | A non-string guard is an error. Otherwise the result is `If(guard, t', f')` with both branches under the same context. It succeeds iff both branches do, and otherwise the true branch's error comes first, then the false branch's. |
| ResourceLemmas.GetAttTranslation | src/ir/resources.rs:198-221 | It succeeds iff both operands are strings, which are copied verbatim. Otherwise the error is the single GetAtt error. |
| ResourceLemmas.TranslateShape | src/ir/resources.rs:91-260 | A successful translation keeps the raw value's top-level shape. This includes array length, object key set, join arity, the GetAtt names and the If guard. |
| ResourceLemmas.SimpleObjectTranslation | src/ir/resources.rs:112-144 | Under Simple, an object gives `Object(ctx.complexity, m)` with exactly the object's keys. Each key's value is the translation of its last entry under the unchanged context. It fails iff a value fails, with the first failure's error. |
| ResourceLemmas.ComplexObjectTranslation | src/ir/resources.rs:117-143 | Under Complex, a missing property type, type entry or property table panics at the first key, and the first undeclared key panics. Otherwise each value is translated under `ChildInputs` of its key's rule, and the object keeps the parent's complexity and exactly its keys. |
| ResourceLemmas.OverrideKeysMember | src/ir/resources.rs:160-167 | A key is an override key iff some override object names it. |
| ResourceLemmas.SubOverridesOk | src/ir/resources.rs:155-174 | The merge succeeds iff every override is an object whose values all translate. |
| ResourceLemmas.SubOverrideValue | src/ir/resources.rs:160-167 | The merged table keeps, for a key, the translation of its winning entry: the last entry in the last override object that names the key. |
| ResourceLemmas.SubOverridesTranslation | src/ir/resources.rs:155-174 | Success condition, exact key set and later-wins values of the merged override table. |
| ResourceLemmas.SubTranslation | src/ir/resources.rs:145-187 | An empty list panics. A non-string template and a tokenizer failure are errors. After valid earlier overrides, the first non-object override gives its error, and so does the first failing override value. On success there is exactly one IR per parsed fragment, in order: a literal becomes `String`, and a variable becomes its override if present, else `Ref(find_ref(name))`. |
| ResourceLemmas.SubOverrideNotObject | src/ir/resources.rs:160-171 | After valid earlier overrides, a non-object override makes the `Fn::Sub` fail with `SubOverridesNotObject`. |
| ResourceLemmas.SubOverrideValueFailure | src/ir/resources.rs:160-166 | After valid earlier overrides and entries, the first failing override value's error is the `Fn::Sub`'s error. |
| ResourceLemmas.SubOrderScenario | src/ir/resources.rs:175-186 | `"${A}-x-${B}"` with no overrides gives `[Ref(A), String("-x-"), Ref(B)]`. |
| ResourceLemmas.OverridePrecedenceScenario | src/ir/resources.rs:176-183 | `"${A}"` with override `{A: "literal"}` gives `String("literal")`, not a reference. |
| ResourceLemmas.InstructionsTranslation | src/ir/resources.rs:54-88 | The batch succeeds iff every resource does. It then has one instruction per resource, in declaration order. Otherwise its error is the first failing resource's. |
| ResourceLemmas.InstructionFields | src/ir/resources.rs:56-86 | The instruction copies name, condition and type, and has exactly the resource's property names. Each value is the translation under the context built from `resource_types[type].properties[name]`. An unknown type, a type without a property table and the first undeclared property panic. |
| Folds.RangeSticky | src/ir/resources.rs:102-105 | Once an item fails, the array loop's result is that failure. |
| Folds.EntriesSticky | src/ir/resources.rs:114-138 | Once an entry fails, the object loop's result is that failure. |
| Folds.OverrideEntriesSticky | src/ir/resources.rs:163-166 | Once an override value fails, inserting the rest keeps that failure. |
| Folds.SubOverridesSticky | src/ir/resources.rs:160-173 | Once an override object fails, merging the rest keeps that failure. |
| Folds.PropertiesSticky | src/ir/resources.rs:63-81 | Once a property fails, the property loop's result is that failure. |
| Folds.InstructionsSticky | src/ir/resources.rs:55-87 | Once a resource fails, the batch's result is that failure. |
| Folds.PropertyFailureAborts | src/ir/resources.rs:77 | A failing property, after the earlier resources and properties succeeded, is the failure of the whole batch. |
| Folds.EntriesOk | src/ir/resources.rs:114-138 | An object's entries translate iff each entry does under its key's context. |
| Folds.EntriesFirstFailure | src/ir/resources.rs:114-138 | The first failing entry decides the object's error. |
| Folds.EntryValue | src/ir/resources.rs:137 | The value kept for a key is the translation of its last entry. |
| Folds.EntriesKeys | src/ir/resources.rs:113-138 | An object's translation has exactly the object's keys. |
| Folds.OverridesOk | src/ir/resources.rs:163-166 | Inserting an override object succeeds iff every value translates. |
| Folds.OverridesFirstFailure | src/ir/resources.rs:163-166 | The first failing override value decides the error of inserting its object. |
| Folds.OverrideValue | src/ir/resources.rs:165 | The last insertion of a key into the override table wins. |
| Folds.OverrideKeeps | src/ir/resources.rs:163-166 | A key that no inserted entry names keeps its earlier value. |
| Folds.OverrideEntriesKeys | src/ir/resources.rs:163-166 | Inserting an override object adds exactly its keys to the table. |
| Folds.SubOverridesKeys | src/ir/resources.rs:155-174 | The merged table has exactly the keys of the override objects. |
| Folds.PropertiesOk | src/ir/resources.rs:63-81 | A resource's properties translate iff each does under its rule's context. |
| Folds.PropertiesFirstFailure | src/ir/resources.rs:63-81 | The first failing property decides the resource's error. |
| Folds.PropertyValue | src/ir/resources.rs:77-78 | The value kept for a property name is the translation of its last occurrence. |
| Folds.PropertiesKeys | src/ir/resources.rs:62-81 | The translated properties have exactly the resource's property names. |
| Folds.InstructionsOk | src/ir/resources.rs:55-87 | The batch succeeds iff each resource's instruction does. |
| Folds.InstructionAt | src/ir/resources.rs:83-87 | Instruction `i` of a successful batch is the instruction for resource `i`. |
| Folds.InstructionsFirstFailure | src/ir/resources.rs:55-87 | The first failing resource decides the batch's error. |

## Left out

- Loading the specification database (`spec()`, line 53) is not modelled. The database is a parameter of the driver.
- The `Fn::Sub` tokenizer, the pseudo-parameter name table and the naming rule of `Specification::full_property_name` are not part of this model. Each is an arbitrary total function supplied with the input, and every result holds for all choices.
- The `PseudoParameter` kinds are CloudFormation's built-in pseudo parameters: AWS::AccountId, AWS::NotificationARNs, AWS::NoValue, AWS::Partition, AWS::Region, AWS::StackId, AWS::StackName and AWS::URLSuffix. Which names the source's table recognises is not modelled, because `src/ir/reference.rs` is not part of this model; the table is the `matchPseudoParameter` parameter.
- Iteration order of `HashMap` is not modelled. Raw objects, resources' properties and the template's parameters are sequences in the parser's order. When a resource has several malformed keys, the order decides which error is reported first. Results maps are Dafny `map`s.
- The text of error messages is not modelled. Each error case is a distinct `Error` variant, except that both GetAtt operands share `GetAttNotString`, as both share one message in the source (lines 205 and 213).
- Panics (`unwrap`, `arr[0]`) are not modelled as aborting the process. Inside `translate_resource` each is one of the error variants listed above. In the driver, every `Err` result stands for an abort.
- The template parser and the internals of `CloudformationParseTree` and `TransmuteError` are not modelled. Only resource names, types, conditions, properties and parameter names are read.
- Lifetimes, borrowing, `Clone`/`Debug` and concurrency are not modelled. The engine is single-threaded and pure.
- Numbers are `i64` values (`Int64`) that are copied unchanged. No arithmetic is done on them.
