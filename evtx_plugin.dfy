/**
 * `EvtxPlugin::run`: finds the node holding the event-log file, opens its
 * virtual file, and turns every record the decoder yields into a child node
 * of the file node, named by the record id and carrying the normalized
 * payload plus the record's timestamp under "evtx".
 *
 * Opening the virtual file and decoding the container are I/O done by other
 * crates; their outcome for a given file handle is the parameter `decode`.
 */
module EvtxPlugin {
  import opened Wrappers
  import opened Text
  import Json
  import opened Values
  import opened Normalizer
  import opened Tree

  /** The plugin's registered name, `self.name()`. */
  const PLUGIN_NAME: string := "evtx"
  /** The attribute under which each record node carries its payload. */
  const PAYLOAD_KEY: string := "evtx"
  const TIME_KEY: string := "time"
  const DATA_KEY: string := "data"

  /** One decoded record: its id, its timestamp and its JSON payload. */
  datatype Record = Record(eventRecordId: Json.U64, timestamp: Timestamp, data: Json.Value)

  /**
   * What opening a virtual file and handing it to the decoder yields: the
   * open failed, the decoder refused the container, or the stream of
   * per-record decode attempts in container order.
   */
  datatype Decoded =
    | OpenFailed(msg: string)
    | ParserFailed(msg: string)
    | Records(items: seq<Result<Record, string>>)

  datatype RunError =
    | ArgumentNotFound(arg: string)
    | ValueNotFound(key: string)
    | ValueTypeMismatch
    | OpenError(msg: string)
    | ParserError(msg: string)
    | AddChildFailed(cause: TreeError)

  /** `.flatten()` over the decode attempts: the records that decoded, in stream order. */
  function Flatten(items: seq<Result<Record, string>>): (r: seq<Record>)
    ensures |r| <= |items|
  {
    if items == [] then []
    else
      var last := items[|items| - 1];
      Flatten(items[..|items| - 1]) + (if last.Ok? then [last.value] else [])
  }

  /** A decoded record yields itself, a failed attempt yields nothing. */
  lemma FlattenSingle(rec: Record, err: string)
    ensures Flatten([Ok(rec)]) == [rec]
    ensures Flatten([Err(err)]) == []
  {
  }

  /** Flatten keeps stream order: the records of a concatenation are the concatenated records. */
  lemma {:induction false} FlattenConcat(a: seq<Result<Record, string>>, b: seq<Result<Record, string>>)
    ensures Flatten(a + b) == Flatten(a) + Flatten(b)
    decreases |b|
  {
    if b == [] {
      assert a + b == a;
    } else {
      var b' := b[..|b| - 1];
      assert (a + b)[..|a + b| - 1] == a + b';
      assert (a + b)[|a + b| - 1] == b[|b| - 1];
      FlattenConcat(a, b');
    }
  }

  /** The number of decode attempts that succeeded. */
  function CountOk(items: seq<Result<Record, string>>): nat {
    if items == [] then 0 else CountOk(items[1..]) + (if items[0].Ok? then 1 else 0)
  }

  /** N decoded records among any number of failed attempts give exactly N records. */
  lemma {:induction false} FlattenCount(items: seq<Result<Record, string>>)
    ensures |Flatten(items)| == CountOk(items)
  {
    if items != [] {
      FlattenCount(items[1..]);
      assert items == [items[0]] + items[1..];
      FlattenConcat([items[0]], items[1..]);
    }
  }

  /** Exactly the records of the `Ok` attempts are kept. */
  lemma {:induction false} FlattenMembers(items: seq<Result<Record, string>>)
    ensures forall rec :: rec in Flatten(items) <==> Ok(rec) in items
  {
    if items != [] {
      var init := items[..|items| - 1];
      FlattenMembers(init);
      assert items == init + [items[|items| - 1]];
    }
  }

  /** Every decoded record's payload is a JSON object (the decoder always emits one). */
  predicate ObjectPayloads(items: seq<Result<Record, string>>) {
    forall i :: 0 <= i < |items| && items[i].Ok? ==> items[i].value.data.Object?
  }

  predicate DecodesToObjects(d: Decoded) {
    d.Records? ==> ObjectPayloads(d.items)
  }

  /** Name of a record's node: the decimal form of its id. */
  function ChildName(rec: Record): (name: string)
    ensures |name| >= 1 && AllDigits(name) && DecimalValue(name) == rec.eventRecordId as nat
    ensures name[0] == '0' ==> name == "0"
  {
    DecimalRoundTrip(rec.eventRecordId);
    DecimalString(rec.eventRecordId)
  }

  /**
   * The value a record's node carries under "evtx": the payload's entries,
   * normalized and in order, followed by a "time" entry holding the timestamp.
   */
  function RecordValue(rec: Record): (v: Value)
    requires rec.data.Object?
    ensures v.Attrs? && |v.attrs| == |rec.data.entries| + 1
    ensures forall i :: 0 <= i < |rec.data.entries| ==>
              v.attrs[i] == Attribute(Lower(rec.data.entries[i].0), Normalize(rec.data.entries[i].1), None)
    ensures v.attrs[|rec.data.entries|] == Attribute(TIME_KEY, DateTime(rec.timestamp), None)
  {
    NormalizeObject(rec.data.entries);
    AddToAttrs(Normalize(rec.data), TIME_KEY, DateTime(rec.timestamp))
  }

  /**
   * Looking up "time" in a record's value finds the timestamp, unless some
   * payload key already lower-cases to "time" and comes first.
   */
  lemma TimeLookup(rec: Record)
    requires rec.data.Object?
    requires forall i :: 0 <= i < |rec.data.entries| ==> Lower(rec.data.entries[i].0) != TIME_KEY
    ensures GetValue(RecordValue(rec).attrs, TIME_KEY) == Some(DateTime(rec.timestamp))
  {
  }

  /** The node for record 42 is named "42". */
  lemma ChildNameExample(t: Timestamp, data: Json.Value)
    ensures ChildName(Record(42, t, data)) == "42"
  {
  }

  /**
   * The early exits of `run` as a function of the file node's attributes:
   * the error returned, or the records that will become children.
   */
  function Plan(attrs: seq<Attribute>, decode: VFileBuilder -> Decoded): (r: Result<seq<Record>, RunError>)
    ensures r == Err(ValueNotFound(DATA_KEY)) <==> GetValue(attrs, DATA_KEY).None?
    ensures r == Err(ValueTypeMismatch) <==>
              GetValue(attrs, DATA_KEY).Some? && !GetValue(attrs, DATA_KEY).value.VFile?
    ensures GetValue(attrs, DATA_KEY).Some? && GetValue(attrs, DATA_KEY).value.VFile? ==>
              var d := decode(GetValue(attrs, DATA_KEY).value.builder);
              && (d.OpenFailed? ==> r == Err(OpenError(d.msg)))
              && (d.ParserFailed? ==> r == Err(ParserError(d.msg)))
              && (d.Records? ==> r == Ok(Flatten(d.items)))
  {
    match GetValue(attrs, DATA_KEY)
    case None => Err(ValueNotFound(DATA_KEY))
    case Some(data) =>
      match TryAsVFileBuilder(data)
      case None => Err(ValueTypeMismatch)
      case Some(b) =>
        match decode(b)
        case OpenFailed(m) => Err(OpenError(m))
        case ParserFailed(m) => Err(ParserError(m))
        case Records(items) => Ok(Flatten(items))
  }

  /** `run` gets past its setup exactly when "data" holds a file that decodes into a record stream. */
  lemma PlanSucceedsIff(attrs: seq<Attribute>, decode: VFileBuilder -> Decoded)
    ensures Plan(attrs, decode).Ok? <==>
              exists b :: GetValue(attrs, DATA_KEY) == Some(VFile(b)) && decode(b).Records?
  {
  }

  /** The ids `base`, `base + 1`, ..., `base + n - 1`, in that order. */
  function Ids(base: nat, n: nat): (ids: seq<NodeId>)
    ensures |ids| == n && forall k :: 0 <= k < n ==> ids[k] == base + k
  {
    if n == 0 then [] else Ids(base, n - 1) + [base + n - 1]
  }

  /**
   * `parent` has gained, after its children `before`, one new child per
   * record, in order: node `base + k` for record `k`, named by the record id,
   * childless, and carrying the record's value under "evtx".
   */
  ghost predicate Appended(tree: Tree, parent: NodeId, base: nat, before: seq<NodeId>, records: seq<Record>)
    reads tree, tree.nodes
  {
    && |tree.nodes| == base + |records|
    && |tree.children| == |tree.nodes|
    && parent < base
    && tree.children[parent] == before + Ids(base, |records|)
    && forall k :: 0 <= k < |records| ==>
         && records[k].data.Object?
         && tree.nodes[base + k].name == ChildName(records[k])
         && tree.nodes[base + k].attributes == [Attribute(PAYLOAD_KEY, RecordValue(records[k]), None)]
         && tree.children[base + k] == []
  }

  /**
   * The body of the record loop: a new node named by the record id, carrying
   * the normalized payload with the timestamp added under "time", attached
   * under `file`.
   */
  method AddRecordNode(tree: Tree, file: NodeId, record: Record,
                       ghost base: nat, ghost before: seq<NodeId>, ghost records: seq<Record>)
    returns (added: Result<NodeId, TreeError>)
    requires tree.Valid()
    requires record.data.Object?
    modifies tree
    ensures tree.Valid()
    ensures |tree.nodes| >= old(|tree.nodes|) && tree.nodes[..old(|tree.nodes|)] == old(tree.nodes)
    ensures forall k :: 0 <= k < old(|tree.nodes|) ==> tree.nodes[k].attributes == old(tree.nodes[k].attributes)
    ensures file < old(|tree.nodes|) ==>
              && added == Ok(old(|tree.nodes|))
              && |tree.nodes| == old(|tree.nodes|) + 1
              && tree.nodes[old(|tree.nodes|)].name == ChildName(record)
              && tree.nodes[old(|tree.nodes|)].attributes == [Attribute(PAYLOAD_KEY, RecordValue(record), None)]
              && tree.children == old(tree.children)[file := old(tree.children[file]) + [old(|tree.nodes|)]] + [[]]
    ensures file >= old(|tree.nodes|) ==>
              added == Err(NodeNotFound(file)) && tree.nodes == old(tree.nodes) && tree.children == old(tree.children)
    ensures old(Appended(tree, file, base, before, records)) ==> Appended(tree, file, base, before, records + [record])
  {
    var nodeRecord := new Node(DecimalString(record.eventRecordId));
    var attribute := Normalize(record.data);
    attribute := AddToAttrs(attribute, TIME_KEY, DateTime(record.timestamp));
    nodeRecord.AddAttribute(PAYLOAD_KEY, attribute, None);
    added := tree.AddChild(file, nodeRecord);
    if old(Appended(tree, file, base, before, records)) {
      var recs := records + [record];
      assert Ids(base, |recs|) == Ids(base, |records|) + [base + |records|];
      assert tree.children[file] == before + Ids(base, |recs|);
      assert |tree.nodes| == base + |recs| && |tree.children| == |tree.nodes| && file < base;
      forall k | 0 <= k < |recs|
        ensures && recs[k].data.Object?
                && tree.nodes[base + k].name == ChildName(recs[k])
                && tree.nodes[base + k].attributes == [Attribute(PAYLOAD_KEY, RecordValue(recs[k]), None)]
                && tree.children[base + k] == []
      {
        if k < |records| {
          assert recs[k] == records[k];
          assert tree.nodes[base + k] == old(tree.nodes[base + k]);
          assert old(tree.nodes[base + k].attributes) == [Attribute(PAYLOAD_KEY, RecordValue(records[k]), None)];
          assert tree.children[base + k] == old(tree.children[base + k]);
        } else {
          assert recs[k] == record && tree.nodes[base + k] == nodeRecord;
          assert tree.children[base + k] == [];
        }
      }
      assert Appended(tree, file, base, before, recs);
    }
  }

  method Run(tree: Tree, file: NodeId, decode: VFileBuilder -> Decoded) returns (r: Result<(), RunError>)
    requires tree.Valid()
    requires forall b :: DecodesToObjects(decode(b))
    modifies tree, tree.nodes
    ensures tree.Valid()
    ensures |tree.nodes| >= old(|tree.nodes|) && tree.nodes[..old(|tree.nodes|)] == old(tree.nodes)
    ensures forall k :: 0 <= k < old(|tree.nodes|) && k != file ==>
              tree.nodes[k].attributes == old(tree.nodes[k].attributes) && tree.children[k] == old(tree.children[k])
    ensures file >= old(|tree.nodes|) ==>
              r == Err(ArgumentNotFound("file")) && tree.nodes == old(tree.nodes) && tree.children == old(tree.children)
    ensures file < old(|tree.nodes|) ==>
              tree.nodes[file].attributes == old(tree.nodes[file].attributes) + [Attribute(PLUGIN_NAME, Null, None)]
    ensures file < old(|tree.nodes|) && Plan(old(tree.nodes[file].attributes), decode).Err? ==>
              && r == Err(Plan(old(tree.nodes[file].attributes), decode).error)
              && tree.nodes == old(tree.nodes) && tree.children == old(tree.children)
    ensures file < old(|tree.nodes|) && Plan(old(tree.nodes[file].attributes), decode).Ok? ==>
              && r == Ok(())
              && Appended(tree, file, old(|tree.nodes|), old(tree.children[file]),
                          Plan(old(tree.nodes[file].attributes), decode).value)
  {
    var found := tree.GetNodeFromId(file);
    if found.None? {
      return Err(ArgumentNotFound("file"));
    }
    var fileNode := found.value;
    ghost var plan := Plan(fileNode.attributes, decode);
    fileNode.AddAttribute(PLUGIN_NAME, Null, None);
    assert tree.nodes == old(tree.nodes) && tree.children == old(tree.children);
    GetValueAppendOther(old(fileNode.attributes), Attribute(PLUGIN_NAME, Null, None), DATA_KEY);
    var data := GetValue(fileNode.attributes, DATA_KEY);
    if data.None? {
      return Err(ValueNotFound(DATA_KEY));
    }
    var builder := TryAsVFileBuilder(data.value);
    if builder.None? {
      return Err(ValueTypeMismatch);
    }
    var decoded := decode(builder.value);
    match decoded
    case OpenFailed(m) =>
      return Err(OpenError(m));
    case ParserFailed(m) =>
      return Err(ParserError(m));
    case Records(items) =>
      assert plan == Ok(Flatten(items)) && ObjectPayloads(items);
      r := AppendRecords(tree, file, items);
  }

  /**
   * The record loop: every decoded record of the stream, in order, becomes a
   * child of `file`; failed decode attempts are skipped.
   */
  method AppendRecords(tree: Tree, file: NodeId, items: seq<Result<Record, string>>) returns (r: Result<(), RunError>)
    requires tree.Valid()
    requires file < |tree.nodes|
    requires ObjectPayloads(items)
    modifies tree
    ensures tree.Valid()
    ensures r == Ok(())
    ensures |tree.nodes| >= old(|tree.nodes|) && tree.nodes[..old(|tree.nodes|)] == old(tree.nodes)
    ensures forall k :: 0 <= k < old(|tree.nodes|) ==> tree.nodes[k].attributes == old(tree.nodes[k].attributes)
    ensures forall k :: 0 <= k < old(|tree.nodes|) && k != file ==> tree.children[k] == old(tree.children[k])
    ensures Appended(tree, file, old(|tree.nodes|), old(tree.children[file]), Flatten(items))
  {
    ghost var base := |tree.nodes|;
    ghost var before := tree.children[file];
    var i := 0;
    while i < |items|
      invariant 0 <= i <= |items|
      invariant tree.Valid()
      invariant Appended(tree, file, base, before, Flatten(items[..i]))
      invariant tree.nodes[..base] == old(tree.nodes)
      invariant forall k :: 0 <= k < base ==> tree.nodes[k].attributes == old(tree.nodes[k].attributes)
      invariant forall k :: 0 <= k < base && k != file ==> tree.children[k] == old(tree.children[k])
    {
      assert items[..i + 1] == items[..i] + [items[i]];
      FlattenConcat(items[..i], [items[i]]);
      assert Flatten(items[..i + 1]) == Flatten(items[..i]) + (if items[i].Ok? then [items[i].value] else []);
      ghost var done := Flatten(items[..i]);
      if items[i].Ok? {
        var added := AddRecordNode(tree, file, items[i].value, base, before, done);
        match added
        case Err(e) =>
          return Err(AddChildFailed(e));
        case Ok(_) =>
          assert Flatten(items[..i + 1]) == done + [items[i].value];
      } else {
        assert Flatten(items[..i + 1]) == done;
      }
      assert Appended(tree, file, base, before, Flatten(items[..i + 1]));
      i := i + 1;
    }
    assert items[..i] == items;
    return Ok(());
  }
}
