/**
 * The host side: the tap framework's `Value` and `Attribute`, reduced to the
 * variants this plugin produces or inspects.
 */
module Values {
  import opened Wrappers
  import Json

  /** The record's `DateTime<Utc>`; only its identity matters here. */
  datatype Timestamp = Timestamp(ticks: int)

  /** A handle able to open the bytes of a virtual file. */
  datatype VFileBuilder = VFileBuilder(handle: nat)

  datatype Value =
    | UInt(n: Json.U64)
    | Str(s: string)
    | Attrs(attrs: seq<Attribute>)
    | DateTime(t: Timestamp)
    | VFile(builder: VFileBuilder)
    | Null

  /** One entry of an attribute set: name, value and optional description. */
  datatype Attribute = Attribute(name: string, value: Value, description: Option<string>)

  /** `Attributes::get_value`: the value of the first entry with that name. */
  function GetValue(attrs: seq<Attribute>, key: string): (r: Option<Value>)
    ensures r.None? <==> forall i :: 0 <= i < |attrs| ==> attrs[i].name != key
    ensures r.Some? ==> exists i :: 0 <= i < |attrs| && attrs[i].name == key && attrs[i].value == r.value
                                    && forall j :: 0 <= j < i ==> attrs[j].name != key
  {
    if attrs == [] then None
    else if attrs[0].name == key then Some(attrs[0].value)
    else
      var r := GetValue(attrs[1..], key);
      assert forall i :: 1 <= i < |attrs| ==> attrs[i] == attrs[1..][i - 1];
      r
  }

  /** Appending an entry under another name does not change what a lookup finds. */
  lemma {:induction false} GetValueAppendOther(attrs: seq<Attribute>, a: Attribute, key: string)
    requires a.name != key
    ensures GetValue(attrs + [a], key) == GetValue(attrs, key)
  {
    if attrs != [] {
      assert (attrs + [a])[1..] == attrs[1..] + [a];
      GetValueAppendOther(attrs[1..], a, key);
    }
  }

  /** `Value::try_as_vfile_builder`. */
  function TryAsVFileBuilder(v: Value): (r: Option<VFileBuilder>)
    ensures r.Some? <==> v.VFile?
    ensures r.Some? ==> v == VFile(r.value)
  {
    match v
    case VFile(b) => Some(b)
    case _ => None
  }

  /** `Attributes::add_attribute` on a value that is an attribute set (as `as_attributes` hands it out). */
  function AddToAttrs(v: Value, name: string, value: Value): (r: Value)
    requires v.Attrs?
    ensures r.Attrs? && |r.attrs| == |v.attrs| + 1 && r.attrs[..|v.attrs|] == v.attrs
    ensures r.attrs[|v.attrs|] == Attribute(name, value, None)
  {
    Attrs(v.attrs + [Attribute(name, value, None)])
  }
}
