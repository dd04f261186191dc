/**
 * Product groups and product services: the group model's name clean-up and
 * duplicate check, the serializers' duplicate validator, and how the
 * serializers render a group and a service.
 */
module ProductGroups {
  import opened Wrappers
  import opened Text
  import opened Queries

  // ---------------------------------------------------------------------------
  // The ProductGroup model
  // ---------------------------------------------------------------------------

  const CleanMessage := "Product Group with this name already exists (case insensitive)."

  class ProductGroup {
    /** None until the group is first saved. */
    var id: Option<nat>
    var productGroupName: string

    constructor (id: Option<nat>, name: string)
      ensures this.id == id && productGroupName == name
    {
      this.id := id;
      productGroupName := name;
    }

    /** `__str__()` */
    function ToString(): (r: string)
      reads this
      ensures r == productGroupName
    {
      productGroupName
    }

    /**
     * `clean()` against the table `rows`: the stripped, lower-cased name may
     * not equal another group's name ignoring case; the group's own row never
     * conflicts.
     */
    function Clean(rows: seq<Row>): (r: Outcome<string>)
      reads this
      ensures r.Fail? <==> exists i :: 0 <= i < |rows| && Some(rows[i].id) != id && IEquals(rows[i].name, Strip(productGroupName))
      ensures r.Fail? ==> r.error == CleanMessage
    {
      IExactIgnoresLower(rows, Strip(productGroupName), id);
      assert forall i :: 0 <= i < |rows| ==>
        (ClashesAt(rows, Strip(productGroupName), id, i) <==> Some(rows[i].id) != id && IEquals(rows[i].name, Strip(productGroupName)));
      if IExactExists(rows, Lower(Strip(productGroupName)), id) then Fail(CleanMessage) else Pass
    }

    /** `save()`: the name is stripped of surrounding whitespace before the row is written. */
    method Save()
      modifies `productGroupName
      ensures productGroupName == Strip(old(productGroupName))
      ensures IsStripped(productGroupName)
      ensures ToString() == productGroupName
    {
      StripIsStripped(productGroupName);
      productGroupName := Strip(productGroupName);
    }
  }

  /** Saving a second time leaves the name as the first save left it. */
  lemma SaveTwiceIsSaveOnce(name: string)
    ensures Strip(Strip(name)) == Strip(name)
    ensures IsStripped(Strip(name))
  {
    StripIdempotent(name);
    StripIsStripped(name);
  }

  /** Names that differ only in case and surrounding whitespace clean the same way. */
  lemma CleanIgnoresCaseAndSpace(g: ProductGroup, h: ProductGroup, rows: seq<Row>)
    requires g.id == h.id && IEquals(Strip(g.productGroupName), Strip(h.productGroupName))
    ensures g.Clean(rows) == h.Clean(rows)
  {
    var a, b := Strip(g.productGroupName), Strip(h.productGroupName);
    forall i | 0 <= i < |rows|
      ensures IEquals(rows[i].name, a) <==> IEquals(rows[i].name, b)
    {
    }
  }

  // ---------------------------------------------------------------------------
  // The serializers
  // ---------------------------------------------------------------------------

  const DuplicateMessage := "Product group already exists."

  /**
   * `validate_product_group_name(value)`: any group whose name equals `value`
   * ignoring case is a duplicate; nothing is excluded and nothing is stripped.
   */
  function ValidateProductGroupName(rows: seq<Row>, value: string): (r: Result<string, string>)
    ensures r.Failure? <==> exists i :: 0 <= i < |rows| && IEquals(rows[i].name, value)
    ensures r.Failure? ==> r.error == DuplicateMessage
    ensures r.Success? ==> r.value == value
  {
    assert forall i :: 0 <= i < |rows| ==> (ClashesAt(rows, value, None, i) <==> IEquals(rows[i].name, value));
    if IExactExists(rows, value, None) then Failure(DuplicateMessage) else Success(value)
  }

  /** Without a self-exclusion, re-submitting a group's own current name on update is refused. */
  lemma ResubmittedNameRefused(rows: seq<Row>, i: int)
    requires 0 <= i < |rows|
    ensures ValidateProductGroupName(rows, rows[i].name).Failure?
  {
    SameNameClashes(rows, i, rows[i].name);
  }

  /** A JSON value of a rendered field. */
  datatype Value = Null | Str(s: string) | Int(i: int) | Bool(b: bool)

  type Representation = map<string, Value>

  /** `data['product_group'] = data.pop('product_group_name')` */
  function RenameGroupKey(data: Representation): (r: Representation)
    requires "product_group_name" in data
    ensures "product_group" in r && r["product_group"] == data["product_group_name"]
    ensures "product_group_name" !in r
    ensures r.Keys == data.Keys - {"product_group_name"} + {"product_group"}
    ensures forall k :: k in data && k != "product_group_name" && k != "product_group" ==> k in r && r[k] == data[k]
  {
    (data - {"product_group_name"})["product_group" := data["product_group_name"]]
  }

  /**
   * `ProductServicesSerializer.to_representation`: when the service has a
   * group, its `product_group` is the group's name rather than its key.
   */
  function ServiceRepresentation(data: Representation, groupName: Option<string>): (r: Representation)
    ensures groupName.Some? ==> "product_group" in r && r["product_group"] == Str(groupName.value)
    ensures groupName.Some? ==> r.Keys == data.Keys + {"product_group"}
    ensures forall k :: k in data && k != "product_group" ==> k in r && r[k] == data[k]
    ensures groupName.None? ==> r == data
  {
    match groupName
    case Some(name) => data["product_group" := Str(name)]
    case None => data
  }

  /** `get_product_group(obj)`: the related group's name, or null when there is no group. */
  function RelatedName(related: Option<string>): (r: Value)
    ensures r == Null <==> related.None?
    ensures related.Some? ==> r == Str(related.value)
  {
    if related.Some? then Str(related.value) else Null
  }

  // ---------------------------------------------------------------------------
  // Product services
  // ---------------------------------------------------------------------------

  class ProductService {
    var productServiceName: string
    var productGroup: Option<nat>
    var isActive: bool

    /** `Product_Services.objects.create(...)`: a service is active unless said otherwise. */
    constructor (name: string, group: Option<nat>, isActive: Option<bool>)
      ensures productServiceName == name && productGroup == group
      ensures this.isActive == isActive.GetOr(true)
    {
      productServiceName := name;
      productGroup := group;
      this.isActive := isActive.GetOr(true);
    }
  }
}
