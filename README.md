# evtx plugin for the tap tree — Dafny model

The tap evtx plugin reads a Windows event-log (`.evtx`) file that sits in a
node of the tap tree, and turns every record of it into a child node of that
file node. Each child is named by the record's `event_record_id` and carries
one attribute, `"evtx"`: the record's JSON payload converted into the host's
typed value, plus a `"time"` entry with the record's timestamp.

This project models the two parts of `src/lib.rs` that make decisions:

- **The value normalizer** `json_value_to_core_value` (module `Normalizer`).
  It is a total function from a `serde_json::Value` (module `Json`) to a
  tap `Value` (module `Values`):
  - u64 numbers stay numbers;
  - all other numbers become null;
  - strings are kept verbatim;
  - objects become attribute sets with lower-cased keys, in iteration order;
  - arrays, booleans and null become null.

  The lemmas prove these rules. They also prove an inverse, `Embed`:
  normalization is lossless on its own output (hence idempotent), and
  payloads whose entries agree position by position up to key case give
  equal results.
- **The record ingestion** `EvtxPlugin::run` (module `EvtxPlugin`, over the
  `Node` and `Tree` classes of module `Tree`). It is an imperative method
  with the source's early exits:
  - missing node;
  - missing `"data"`;
  - not a virtual file;
  - open failure;
  - decoder failure.

  Once the node is found, and before the `"data"` lookup, the file node gains
  a null `"evtx"` attribute as a side effect. Then comes a loop over the
  decode attempts that skips failed ones (`.flatten()`) and appends one child
  per decoded record, in stream order.
  `Run`'s postcondition states the whole new tree. No node and no child is
  added on any error path; once the node is found, the file node keeps the
  null `"evtx"` attribute. On success the file node's child list is extended by
  exactly the nodes described by `Flatten`, `ChildName` and `RecordValue`.

Module `Text` holds the two standard-library string operations the plugin
relies on. `Lower` is `to_lowercase`, ASCII only. `DecimalString` is
`u64::to_string`. Each comes with its partner properties: idempotence, the
"equal up to case" characterisation, and a parse-back round trip.

Opening the virtual file and decoding the binary container are I/O done by
other crates. `Run` receives them as its parameter
`decode: VFileBuilder -> Decoded`. For each file handle, `decode` gives one
of three outcomes: the open failed, the parser refused the container, or the
sequence of per-record decode results.

Two details of the code's error structure:

- Line 43 adds a null attribute named after the plugin (`"evtx"`) to the file
  node before the `"data"` lookup. The attribute stays even when the run then
  fails.
- Opening the virtual file (line 46) and the parser rejecting the stream
  (lines 48-52) are two different errors.

## Model

| member | source | states |
|---|---|---|
| `Text.Lower` | src/lib.rs:86 | lower-casing keeps the key's length and leaves no upper-case letter |
| `Text.LowerFixesExactlyLowercase` | src/lib.rs:86 | a key is unchanged by lower-casing exactly when it has no upper-case letter |
| `Text.LowerIdempotent` | src/lib.rs:86 | lower-casing an already lower-cased key changes nothing |
| `Text.LowerEqualIff` | src/lib.rs:86 | two keys lower-case to the same key if and only if they differ only in letter case (both directions, against an independent character-wise definition) |
| `Text.DecimalString` | src/lib.rs:56 | a record id renders as a non-empty string of decimal digits with no leading zero: a string starting with `0` is `"0"`, the rendering of 0 |
| `Text.DecimalRoundTrip` | src/lib.rs:56 | reading the rendered digits back gives the record id |
| `Text.DecimalStringInjective` | src/lib.rs:56 | two record ids give the same node name if and only if they are equal |
| `Json.OfInteger` | src/lib.rs:74 | serde_json stores an integer as u64 or negative i64 holding exactly that integer, otherwise as a float |
| `Json.AsU64` | src/lib.rs:74 | `as_u64` yields a value exactly for a u64-stored number, and that value is the number |
| `Json.AsU64OfInteger` | src/lib.rs:74 | `as_u64` yields the integer exactly when it lies in [0, 2^64), and nothing otherwise |
| `Values.GetValue` | src/lib.rs:44 | the lookup of `"data"` fails exactly when no entry has that name, and otherwise yields the first such entry's value |
| `Values.GetValueAppendOther` | src/lib.rs:43-44 | adding the `"evtx"` attribute first does not change what the `"data"` lookup finds |
| `Values.TryAsVFileBuilder` | src/lib.rs:45 | the conversion succeeds exactly on virtual-file values and returns their handle |
| `Values.AddToAttrs` | src/lib.rs:59 | adding `"time"` keeps every existing entry in place and puts the new entry last |
| `Normalizer.Normalize` | src/lib.rs:68-92 | every payload maps to exactly one value; the result is in normal form (lower-case keys and no descriptions at every depth, no dates or files); it is an attribute set exactly when the payload is an object |
| `Normalizer.NormalizeEntries` | src/lib.rs:83-87 | the object loop yields one entry per map entry, each in normal form |
| `Normalizer.NormalizeObject` | src/lib.rs:81-89 | an object becomes an attribute set with exactly one entry per input entry, in order: the lower-cased key, the recursively normalized value and no description |
| `Normalizer.NormalizeEntriesAt` | src/lib.rs:83-87 | entry `i` of the object loop's result is built from input entry `i` |
| `Normalizer.NormalizeInteger` | src/lib.rs:72-78 | an integer in [0, 2^64) normalizes to an unsigned value equal to it; any other integer normalizes to null, never to an error |
| `Normalizer.NormalizeString` | src/lib.rs:80 | a string is kept exactly, with no case change or trimming |
| `Normalizer.NormalizeOtherShapes` | src/lib.rs:72-90 | arrays, booleans, null and non-u64 numbers all normalize to null |
| `Normalizer.NormalizeEmbed` | src/lib.rs:68-92 | normalizing the JSON reading of any normal-form value gives that value back, so normalization loses nothing it keeps |
| `Normalizer.NormalizeEmbedEntries` | src/lib.rs:83-87 | the same round trip for the entries of an attribute set |
| `Normalizer.NormalizeIdempotent` | src/lib.rs:68-92 | normalizing the JSON reading of a normalized payload gives the same normalized value |
| `Normalizer.NormalizeIgnoresKeyCase` | src/lib.rs:86 | payloads whose object entries agree position by position, in iteration order, up to the letter case of their keys, at any depth, normalize to equal values |
| `Normalizer.NestedExample` | src/lib.rs:81-89 | `{"A": {"B": 2}}` becomes a set with key `a` whose value is a set with key `b` and value 2 |
| `Tree.Node.constructor` | src/lib.rs:56 | a new node has the given name and no attributes |
| `Tree.Node.AddAttribute` | src/lib.rs:43 | adding an attribute appends exactly that entry to the node's set |
| `Tree.Tree.GetNodeFromId` | src/lib.rs:42 | the lookup finds a node exactly when the id is in the tree, and returns that node |
| `Tree.Tree.AddChild` | src/lib.rs:61 | attaching under an existing parent gives the node the next id, appends that id to the parent's children and keeps the tree valid; under a missing parent it fails and changes nothing |
| `EvtxPlugin.Flatten` | src/lib.rs:54 | the flattened stream is never longer than the stream |
| `EvtxPlugin.FlattenSingle` | src/lib.rs:54 | a decoded record contributes itself and a failed decode attempt contributes nothing |
| `EvtxPlugin.FlattenConcat` | src/lib.rs:54 | flattening keeps stream order: flattening a concatenation concatenates the flattened parts |
| `EvtxPlugin.FlattenCount` | src/lib.rs:54 | the flattened stream has exactly as many records as the stream has successful decode attempts, independently counted |
| `EvtxPlugin.FlattenMembers` | src/lib.rs:54 | a record is in the flattened stream if and only if the stream holds it as a successful decode |
| `EvtxPlugin.ChildName` | src/lib.rs:56 | a child's name is a non-empty digit string whose decimal value is the record id, with no leading zero (a name starting with `0` is `"0"`) |
| `EvtxPlugin.ChildNameExample` | src/lib.rs:56 | record 42's node is named `"42"` |
| `EvtxPlugin.RecordValue` | src/lib.rs:58-60 | the `"evtx"` value holds the normalized payload entries in order, followed by one `"time"` entry with the record's timestamp |
| `EvtxPlugin.TimeLookup` | src/lib.rs:59 | looking up `"time"` in that value finds the timestamp when no payload key lower-cases to `"time"` |
| `EvtxPlugin.Plan` | src/lib.rs:44-52 | each setup error is tied to its cause: `ValueNotFound` exactly when no `"data"` entry exists, `ValueTypeMismatch` exactly when `"data"` is not a virtual file, `OpenError` or `ParserError` with the message from opening and decoding that file, and otherwise the flattened record stream |
| `EvtxPlugin.PlanSucceedsIff` | src/lib.rs:44-52 | the run gets past its setup if and only if `"data"` holds a virtual file that opens and decodes into a record stream |
| `EvtxPlugin.AddRecordNode` | src/lib.rs:56-61 | one loop iteration appends one child named by the record id and carrying the record's value under `"evtx"`, earlier nodes unchanged; the add_child error is passed through |
| `EvtxPlugin.AppendRecords` | src/lib.rs:54-62 | the loop succeeds and appends exactly one child per decoded record and none per failed decode, in stream order, changing no other node |
| `EvtxPlugin.Run` | src/lib.rs:40-65 | a missing node, missing `"data"`, a non-file value, an open failure or a parser failure each return their own error and add no child; apart from the missing-node case, the file node first gains a null `"evtx"` attribute; on success the file node's children are extended by exactly the flattened records' nodes, in order |

## Left out

- Registration glue: the `plugin!` macro, the `Arguments`/`Results` schema and the serde/`JsonSchema` derives (src/lib.rs:19-36). Only the plugin name `"evtx"` is kept, as `PLUGIN_NAME`.
- Opening the virtual file (`open`, line 46) and the binary container decoder (`EvtxParser`, lines 48 and 54). These are foreign crates doing I/O. Their outcome for a file handle is the parameter `decode`, and their error messages are opaque strings.
- Locking in the tap tree: the tree is a single-threaded store of nodes and child lists.
- Float values inside `serde_json::Number`: a float is the bare tag `Float`, because only "is it a u64" matters.
- Text.Lower: ASCII case folding only. Rust's `to_lowercase` also maps non-ASCII letters, which this model leaves unchanged.
- EvtxPlugin.Run: requires that every decoded payload is a JSON object. The tap library defines what `as_attributes` (line 59) does on any other value, and that library is not part of this model. The evtx decoder always emits an object.
- EvtxPlugin.AppendRecords: `add_child` fails only for a parent that is not in the tree. The file node was found at line 42 and nodes are never removed, so the add_child error at line 61 cannot happen here. The model proves that the loop succeeds. Removal of the parent by concurrent code, or a partial append followed by a failure, is not modelled.
- The tap `Attributes` type is not part of this model. `add_attribute` is modelled as appending an entry, so duplicate keys coexist. `get_value` is modelled as returning the first entry with the name.
- The timestamp (`DateTime<Utc>`) is an opaque value, and node ids are positions in the tree's node list.
- serde_json maps have unique keys. The model allows any sequence of entries, which covers maps under both of serde_json's orderings.
