/** The resource specification database, as read-only maps. */
module Specifications {
  import opened Wrappers

  /** How a property is classified: a schema-free value, or a structure whose
      keys are themselves declared properties of a named property type. */
  datatype Complexity = Simple(primitive: Option<string>) | Complex(typeName: string)

  /** The entry of a resource type or property type: its properties, each with
      the complexity of its rule. The source keeps this map optional. */
  datatype TypeRule = TypeRule(properties: Option<map<string, Complexity>>)

  datatype Specification = Specification(
    resourceTypes: map<string, TypeRule>,
    propertyTypes: map<string, TypeRule>)
}
