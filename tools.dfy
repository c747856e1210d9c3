/** The tool registry (server.js:36-54): the tools offered to the model and
    the executor behind each name. There is exactly one tool,
    `get_product_stock`. */
module Tools {
  import opened Wrappers
  import Inventory

  /** One entry of a JSON-schema `properties` object: a field and its type. */
  datatype Property = Property(name: string, jsonType: string)

  /** `{ type: 'object', properties: {...}, required: [...] }`. */
  datatype Schema = ObjectSchema(properties: seq<Property>, required: seq<string>)

  /** The closed set of executors (`func`); one variant per tool. */
  datatype Executor = ProductStockLookup

  datatype Tool = Tool(name: string, description: string, parameters: Schema, func: Executor)

  /** What the first model call is told about a tool: `{ name, description, schema }`. */
  datatype Declaration = Declaration(name: string, description: string, schema: Schema)

  const GetProductStock: Tool := Tool(
    "get_product_stock",
    "احصل على مخزون منتج معين بالاسم",
    ObjectSchema([Property("product_name", "string")], ["product_name"]),
    ProductStockLookup)

  /** The `tools` array. */
  const Registry: seq<Tool> := [GetProductStock]

  predicate UniqueToolNames(tools: seq<Tool>) {
    forall i, j :: 0 <= i < j < |tools| ==> tools[i].name != tools[j].name
  }

  /** The registry's names are unique, so a lookup by name is unambiguous. */
  lemma RegistryUnique()
    ensures UniqueToolNames(Registry)
    ensures forall t :: t in Registry ==> t == GetProductStock
  {
  }

  /** `tools.find(t => t.name === name)`: the first tool with that name. */
  function FindTool(tools: seq<Tool>, name: string): (r: Option<Tool>)
    ensures r.Some? ==> r.value in tools && r.value.name == name
    ensures r.None? <==> forall i :: 0 <= i < |tools| ==> tools[i].name != name
  {
    if tools == [] then None
    else if tools[0].name == name then Some(tools[0])
    else FindTool(tools[1..], name)
  }

  /** The tool found is the first one with the name: every earlier tool has another name. */
  lemma {:induction false} FindToolFirst(tools: seq<Tool>, name: string)
    requires FindTool(tools, name).Some?
    ensures exists k ::
      0 <= k < |tools| && tools[k] == FindTool(tools, name).value &&
      forall j :: 0 <= j < k ==> tools[j].name != name
  {
    if tools[0].name == name {
      assert tools[0] == FindTool(tools, name).value;
    } else {
      FindToolFirst(tools[1..], name);
      var k :| 0 <= k < |tools[1..]| && tools[1..][k] == FindTool(tools[1..], name).value &&
        forall j :: 0 <= j < k ==> tools[1..][j].name != name;
      assert tools[k + 1] == FindTool(tools, name).value;
      assert forall j :: 0 <= j < k + 1 ==> tools[j].name != name by {
        forall j | 0 <= j < k + 1 ensures tools[j].name != name {
          if j > 0 { assert tools[j] == tools[1..][j - 1]; }
        }
      }
    }
  }

  /** In the registry, a name resolves exactly when it is `get_product_stock`. */
  lemma FindInRegistry(name: string)
    ensures FindTool(Registry, name) == if name == GetProductStock.name then Some(GetProductStock) else None
  {
  }

  predicate IsRegistered(name: string) {
    FindTool(Registry, name).Some?
  }

  /** `tools.map(t => ({ name: t.name, description: t.description, schema: t.parameters }))`. */
  function Declarations(tools: seq<Tool>): (r: seq<Declaration>)
    ensures |r| == |tools|
    ensures forall i :: 0 <= i < |tools| ==>
      r[i] == Declaration(tools[i].name, tools[i].description, tools[i].parameters)
  {
    if tools == [] then [] else [Declaration(tools[0].name, tools[0].description, tools[0].parameters)] + Declarations(tools[1..])
  }

  /** Runs a tool's executor on its single string argument. */
  function Invoke(tool: Tool, arg: string): string {
    match tool.func
    case ProductStockLookup => Inventory.Lookup(arg)
  }
}
