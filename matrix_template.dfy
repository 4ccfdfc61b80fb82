/** The rubric a candidate is scored against (models/MatrixTemplate.js): a
    template holds an ordered list of parent components, each holding an
    ordered list of scorable child components. No relation between a child's
    constraints is enforced, and child ids are not checked for uniqueness. */
module MatrixTemplate {
  import opened Wrappers
  import opened ObjectIds

  /** The declared input kind of a child; the aggregator ignores it. */
  datatype ChildType = TextInput | Rating | Range

  /** Optional advisory constraints; `min <= max` is not required. */
  datatype Constraints = Constraints(min: Option<real>, max: Option<real>, options: seq<string>)

  datatype ChildComponent = ChildComponent(id: ObjectId, name: string, kind: ChildType, constraints: Constraints)

  datatype ParentComponent = ParentComponent(id: ObjectId, name: string, children: seq<ChildComponent>)

  /** `isActive` defaults to true when a template is created. */
  datatype Template = Template(name: string, components: seq<ParentComponent>, isActive: bool)
}
