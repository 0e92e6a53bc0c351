/** Shared vocabulary of the collision-warning model: node identities,
    optional references and RGB colours. */
module Types {

  /** An optional value; `None` stands for a null pointer or an unset
      node reference. */
  datatype Option<+T> = None | Some(value: T)

  /** Scene nodes (collision-warning nodes, model nodes, transform nodes)
      are identified by a natural number in place of their string ID. */
  type NodeId = nat

  /** An RGB triple. Components are compared by exact equality, as the
      setters of the parameter node compare doubles with `!=`; the text
      form of a colour is not modelled. */
  datatype Color = Color(r: real, g: real, b: real)

  /** The observer events the model distinguishes. `InputDataModifiedEvent`
      is the collision-warning node's own event, fired only when one of its
      inputs changes; the other two are the generic VTK/MRML events that
      referenced nodes and the node itself emit. */
  datatype Event = ModifiedEvent | TransformModifiedEvent | InputDataModifiedEvent

  /** The neutral grey used as a default original colour, both by the node
      constructor and by the logic when a model has no display. */
  const Grey: Color := Color(0.5, 0.5, 0.5)

  /** The default warning colour: pure red. */
  const Red: Color := Color(1.0, 0.0, 0.0)
}
