/** The typed ontology: object types, links and actions, as the validator hands them out. */
module Model {
  import opened Wrappers
  import opened Values
  import opened Types
  import opened ExprAst

  datatype Property = Property(name: string, propType: PropType, column: string, nullable: bool)

  datatype ObjectType = ObjectType(
    apiName: string,
    primaryKey: string,
    table: string,
    properties: map<string, Property>,
    searchable: set<string>,
    semantic: Option<string>)
  {
    /** The validator's rules on one object type. */
    predicate Valid() {
      && primaryKey in properties && !properties[primaryKey].nullable
      && (forall name | name in properties :: properties[name].name == name)
      && (forall a, b | a in properties && b in properties ::
            properties[a].column == properties[b].column ==> a == b)
      && (semantic.Some? ==> semantic.value in properties && properties[semantic.value].propType == StringT)
    }

    function Pk(): Property
      requires primaryKey in properties
    {
      properties[primaryKey]
    }
  }

  datatype LinkEnd = LinkEnd(objectType: string, property: string)

  datatype Through = Through(table: string, fromColumn: string, toColumn: string)

  datatype LinkType = LinkType(
    apiName: string,
    frm: LinkEnd,
    to: LinkEnd,
    reverseName: Option<string>,
    through: Option<Through>)

  datatype Parameter = Parameter(name: string, propType: PropType, required: bool, default: Value)

  datatype Operation = Create | Modify | Delete

  datatype Rule = Rule(expr: Node, message: string)

  /** One `set` clause of an effect. */
  datatype Assignment = Assignment(property: string, expr: Node)

  /** `key` is absent for a create, whose key is the value it sets; `sets` is empty for a delete. */
  datatype Action = Action(
    apiName: string,
    target: string,
    operation: Operation,
    parameters: seq<Parameter>,
    key: Option<Node>,
    sets: seq<Assignment>,
    validation: seq<Rule>)

  datatype Ontology = Ontology(
    objectTypes: map<string, ObjectType>,
    links: seq<LinkType>,
    actions: seq<Action>)

  function SetNames(sets: seq<Assignment>): (names: set<string>)
    ensures forall k | 0 <= k < |sets| :: sets[k].property in names
  {
    set k | 0 <= k < |sets| :: sets[k].property
  }

  /** The properties `object.<name>` names in an expression. */
  function ObjectReads(node: Node): set<string> {
    set path | path in Refs(node) && IsObjectRef(path) :: path[1]
  }

  /** Every expression of an action that may read the object. */
  function ActionExprs(action: Action): seq<Node> {
    seq(|action.validation|, k requires 0 <= k < |action.validation| => action.validation[k].expr)
    + seq(|action.sets|, k requires 0 <= k < |action.sets| => action.sets[k].expr)
    + (if action.key.Some? then [action.key.value] else [])
  }

  /** What an action touches: each declared property that it sets or that one of its expressions names. */
  function PropertiesInPlay(action: Action, target: ObjectType): set<string> {
    var exprs := ActionExprs(action);
    var read := set k, name | 0 <= k < |exprs| && name in ObjectReads(exprs[k]) :: name;
    (SetNames(action.sets) + read) * target.properties.Keys
  }

  // ---- physical rows ---------------------------------------------------------------------

  /** A physical row, keyed by column. A column the row does not hold is null. */
  type Row = map<string, Value>

  /** An object as the ontology sees it, keyed by property. */
  type View = map<string, Value>

  function Cell(row: Row, column: string): Value {
    if column in row then row[column] else Null
  }

  /** The value of every declared property, nothing withheld. */
  function PropertiesOf(obj: ObjectType, row: Row): (view: View)
    ensures view.Keys == obj.properties.Keys
  {
    map name | name in obj.properties :: Cell(row, obj.properties[name].column)
  }

  /** A reference stands for the key of the type it names, one step and no further. */
  function Resolved(t: PropType, objects: map<string, ObjectType>): PropType {
    if t.ObjectRefT? && t.target in objects && objects[t.target].primaryKey in objects[t.target].properties
    then objects[t.target].Pk().propType
    else t
  }

  /** The type a reference is carried as: the key it refers to, followed to the end. `open` holds the
      types not yet passed through, so a chain that closes on itself ends as a refusal. */
  function Carrier(objects: map<string, ObjectType>, t: PropType, open: set<string>): (carried: Option<PropType>)
    ensures carried.Some? ==> !carried.value.ObjectRefT?
    decreases open
  {
    if !t.ObjectRefT? then Some(t)
    else if t.target !in objects then Some(StringT)
    else if t.target !in open || objects[t.target].primaryKey !in objects[t.target].properties then None
    else Carrier(objects, objects[t.target].Pk().propType, open - {t.target})
  }

  /** A column holds null or a value of the type its property is carried as; one that is carried as
      nothing can only be null. */
  predicate Holds(v: Value, t: PropType, objects: map<string, ObjectType>) {
    match Carrier(objects, t, objects.Keys)
    case Some(carried) => Typed(v, carried)
    case None => v.Null?
  }

  /** Every property of the row holds what its declared type is carried as. */
  ghost predicate TypedView(obj: ObjectType, objects: map<string, ObjectType>, view: View) {
    forall name | name in obj.properties :: name in view && Holds(view[name], obj.properties[name].propType, objects)
  }
}
