/**
 * The one document-store table the handlers use, keyed by `id`, with the
 * documented meaning of the five commands they send: Scan, Get, Put,
 * Update (SET actions, ALL_NEW) and Delete.
 */
module DocumentTable {
  import opened Wrappers
  import opened PortfolioModel

  /** An attribute value as the handlers send it: a string or a list of strings. */
  datatype AttributeValue = S(s: string) | L(l: seq<string>)

  /** The validation errors the store raises for an update. */
  datatype UpdateError =
    | EmptyExpression
    | UndefinedName
    | UndefinedValue
    | UnusedName
    | UnusedValue
    | OverlappingPaths
    | KeyAttribute
    | OutsideSchema

  /** The message the store sends with an error (paraphrased). */
  function ErrorMessage(e: UpdateError): string {
    match e
    case EmptyExpression => "Invalid UpdateExpression: The expression can not be empty"
    case UndefinedName => "An expression attribute name used in the document path is not defined"
    case UndefinedValue => "An expression attribute value used in expression is not defined"
    case UnusedName => "Value provided in ExpressionAttributeNames unused in expressions"
    case UnusedValue => "Value provided in ExpressionAttributeValues unused in expressions"
    case OverlappingPaths => "Two document paths overlap with each other"
    case KeyAttribute => "Cannot update attribute id. This attribute is part of the key"
    case OutsideSchema => "Attribute or value type outside the Portfolio schema"
  }

  /** One `path = operand` action of a SET update expression, e.g. `#name = :name`. */
  datatype SetAction = SetAction(path: string, operand: string)

  /** The text of one action. */
  function ActionText(a: SetAction): string {
    a.path + " = " + a.operand
  }

  /** The texts of the actions joined with ", ". */
  function JoinActions(actions: seq<SetAction>): (r: string)
    ensures |actions| > 0 ==> |r| > 0
  {
    if actions == [] then ""
    else if |actions| == 1 then ActionText(actions[0])
    else ActionText(actions[0]) + ", " + JoinActions(actions[1..])
  }

  /** The UpdateExpression string sent to the store: `SET` followed by the joined actions. */
  function UpdateExpressionText(actions: seq<SetAction>): string {
    "SET " + JoinActions(actions)
  }

  /** The name placeholders the actions use. */
  function Paths(actions: seq<SetAction>): set<string>
    decreases |actions|
  {
    if actions == [] then {} else {actions[0].path} + Paths(actions[1..])
  }

  /** The value placeholders the actions use. */
  function Operands(actions: seq<SetAction>): set<string>
    decreases |actions|
  {
    if actions == [] then {} else {actions[0].operand} + Operands(actions[1..])
  }

  /** No two actions write the same attribute (the store refuses overlapping paths). */
  predicate DistinctTargets(actions: seq<SetAction>, names: map<string, string>) {
    forall i, j | 0 <= i < j < |actions| && actions[i].path in names && actions[j].path in names ::
      names[actions[i].path] != names[actions[j].path]
  }

  /**
   * Writes one attribute of an item. The key attribute cannot be updated;
   * an attribute or value type outside the Portfolio schema is refused, as
   * the typed record cannot hold it.
   */
  function SetAttribute(item: Portfolio, attribute: string, v: AttributeValue): (r: Result<Portfolio, UpdateError>)
    ensures r.Ok? ==> r.value.id == item.id
  {
    if attribute == "id" then Err(KeyAttribute)
    else if attribute == "name" && v.S? then Ok(item.(name := Some(v.s)))
    else if attribute == "description" && v.S? then Ok(item.(description := Some(v.s)))
    else if attribute == "skills" && v.L? then Ok(item.(skills := Some(v.l)))
    else if attribute == "createdAt" && v.S? then Ok(item.(createdAt := v.s))
    else if attribute == "updatedAt" && v.S? then Ok(item.(updatedAt := v.s))
    else Err(OutsideSchema)
  }

  /** Performs the actions left to right, resolving each placeholder through the maps. */
  function ApplyActions(item: Portfolio, actions: seq<SetAction>,
                        names: map<string, string>, values: map<string, AttributeValue>): (r: Result<Portfolio, UpdateError>)
    ensures r.Ok? ==> r.value.id == item.id
    decreases |actions|
  {
    if actions == [] then Ok(item)
    else if actions[0].path !in names then Err(UndefinedName)
    else if actions[0].operand !in values then Err(UndefinedValue)
    else
      match SetAttribute(item, names[actions[0].path], values[actions[0].operand])
      case Err(e) => Err(e)
      case Ok(next) => ApplyActions(next, actions[1..], names, values)
  }

  /**
   * The effect of an UpdateCommand with a SET expression on an existing item:
   * the merged item (what ReturnValues ALL_NEW answers) or the validation
   * error the store raises. An empty expression, a placeholder without an
   * entry, an entry no action uses and two actions on one attribute are errors.
   */
  function Execute(item: Portfolio, actions: seq<SetAction>,
                   names: map<string, string>, values: map<string, AttributeValue>): (r: Result<Portfolio, UpdateError>)
    ensures r.Ok? ==> r.value.id == item.id
    ensures r.Ok? ==> |actions| > 0 && names.Keys == Paths(actions) && values.Keys == Operands(actions)
  {
    if actions == [] then Err(EmptyExpression)
    else if !(Paths(actions) <= names.Keys) then
      Err(UndefinedName)
    else if !(Operands(actions) <= values.Keys) then
      Err(UndefinedValue)
    else if names.Keys != Paths(actions) then
      Err(UnusedName)
    else if values.Keys != Operands(actions) then
      Err(UnusedValue)
    else if !DistinctTargets(actions, names) then
      Err(OverlappingPaths)
    else ApplyActions(item, actions, names, values)
  }

  /** `r` is a scan of `m`: every stored item exactly once, in some order. */
  ghost predicate ScanOf(r: seq<Portfolio>, m: map<string, Portfolio>) {
    && (forall i, j | 0 <= i < j < |r| :: r[i] != r[j])
    && (forall p :: p in r <==> p in m.Values)
  }

  /** The table: a map from `id` to the stored item. */
  class Table {
    var items: map<string, Portfolio>

    /** Every item is stored under its own `id`. */
    ghost predicate Valid()
      reads this
    {
      forall id | id in items :: items[id].id == id
    }

    constructor ()
      ensures Valid() && items == map[]
    {
      items := map[];
    }

    /** ScanCommand: all items, one per stored key, in an order the store chooses. */
    method Scan() returns (r: seq<Portfolio>)
      requires Valid()
      ensures ScanOf(r, items)
      ensures |r| == |items|
    {
      r := [];
      var rest := items.Keys;
      while rest != {}
        invariant rest <= items.Keys
        invariant forall i | 0 <= i < |r| :: r[i].id in items && items[r[i].id] == r[i] && r[i].id !in rest
        invariant forall id | id in items && id !in rest :: items[id] in r
        invariant forall i, j | 0 <= i < j < |r| :: r[i].id != r[j].id
        invariant |r| + |rest| == |items|
        decreases rest
      {
        var id :| id in rest;
        r := r + [items[id]];
        rest := rest - {id};
      }
      forall p | p in items.Values ensures p in r {
        var id :| id in items && items[id] == p;
      }
    }

    /** GetCommand: the item stored under `id`, if any. */
    function Get(id: string): (r: Option<Portfolio>)
      reads this
      ensures r.None? <==> id !in items
      ensures r.Some? ==> r.value == items[id]
    {
      if id in items then Some(items[id]) else None
    }

    /** PutCommand: inserts the item, or replaces the one with the same `id`. */
    method Put(item: Portfolio)
      requires Valid()
      modifies this
      ensures Valid()
      ensures items == old(items)[item.id := item]
    {
      items := items[item.id := item];
    }

    /**
     * UpdateCommand with a SET expression and ReturnValues ALL_NEW on an
     * existing item: on success the merged item is stored and returned, on a
     * validation error nothing changes.
     */
    method Update(id: string, actions: seq<SetAction>,
                  names: map<string, string>, values: map<string, AttributeValue>) returns (r: Result<Portfolio, UpdateError>)
      requires Valid() && id in items
      modifies this
      ensures Valid()
      ensures r == Execute(old(items)[id], actions, names, values)
      ensures items == if r.Ok? then old(items)[id := r.value] else old(items)
    {
      r := Execute(items[id], actions, names, values);
      if r.Ok? {
        items := items[id := r.value];
      }
    }

    /** DeleteCommand: removes the item stored under `id`, if any. */
    method Delete(id: string)
      requires Valid()
      modifies this
      ensures Valid()
      ensures items == old(items) - {id}
    {
      items := items - {id};
    }
  }
}
