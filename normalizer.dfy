/**
 * `json_value_to_core_value`: the total map from a record's JSON payload to
 * the host's typed value. Numbers that are u64s stay numbers, strings stay
 * strings, objects become attribute sets with lower-cased keys, and every
 * other shape becomes the null value.
 */
module Normalizer {
  import opened Wrappers
  import opened Text
  import Json
  import opened Values

  function Normalize(v: Json.Value): (r: Value)
    ensures NormalForm(r)
    ensures r.Attrs? <==> v.Object?
    decreases v, 1
  {
    match v
    case Number(n) =>
      (match Json.AsU64(n)
       case Some(u) => UInt(u)
       case None => Null)
    case String(s) => Str(s)
    case Object(entries) => Attrs(NormalizeEntries(entries))
    case _ => Null
  }

  /** The object branch's loop: one `add_attribute` per map entry, in iteration order. */
  function NormalizeEntries(es: seq<(string, Json.Value)>): (r: seq<Attribute>)
    ensures |r| == |es|
    ensures forall i :: 0 <= i < |r| ==> NormalEntry(r[i])
    decreases es, 0
  {
    if es == [] then []
    else
      var last := es[|es| - 1];
      assert last in es && last.1 < last;
      NormalizeEntries(es[..|es| - 1]) + [Attribute(Lower(last.0), Normalize(last.1), None)]
  }

  /**
   * The values normalization can produce: no timestamps or file handles, and
   * at every depth keys without upper-case letters and no descriptions.
   */
  predicate NormalForm(h: Value)
    decreases h, 1
  {
    match h
    case UInt(_) => true
    case Str(_) => true
    case Null => true
    case Attrs(attrs) => forall i :: 0 <= i < |attrs| ==> NormalEntry(attrs[i])
    case DateTime(_) => false
    case VFile(_) => false
  }

  predicate NormalEntry(a: Attribute)
    decreases a, 0
  {
    a.description.None? && IsLowercase(a.name) && NormalForm(a.value)
  }

  /** The obvious JSON reading of a host value: the inverse of normalization on normal forms. */
  function Embed(h: Value): Json.Value
    decreases h, 1
  {
    match h
    case UInt(n) => Json.Number(Json.PosInt(n))
    case Str(s) => Json.String(s)
    case Attrs(attrs) => Json.Object(EmbedEntries(attrs))
    case _ => Json.Null
  }

  function EmbedEntries(attrs: seq<Attribute>): (r: seq<(string, Json.Value)>)
    ensures |r| == |attrs|
    decreases attrs, 0
  {
    if attrs == [] then []
    else
      var last := attrs[|attrs| - 1];
      EmbedEntries(attrs[..|attrs| - 1]) + [(last.name, Embed(last.value))]
  }

  /**
   * An object becomes an attribute set with exactly one entry per input entry,
   * in order: the lower-cased key, the normalized value, no description.
   */
  lemma {:induction false} NormalizeObject(es: seq<(string, Json.Value)>)
    ensures Normalize(Json.Object(es)).Attrs?
    ensures |Normalize(Json.Object(es)).attrs| == |es|
    ensures forall i :: 0 <= i < |es| ==>
              Normalize(Json.Object(es)).attrs[i] == Attribute(Lower(es[i].0), Normalize(es[i].1), None)
  {
    NormalizeEntriesAt(es);
  }

  lemma {:induction false} NormalizeEntriesAt(es: seq<(string, Json.Value)>)
    ensures forall i :: 0 <= i < |es| ==>
              NormalizeEntries(es)[i] == Attribute(Lower(es[i].0), Normalize(es[i].1), None)
  {
    if es != [] {
      var init := es[..|es| - 1];
      NormalizeEntriesAt(init);
      assert forall i :: 0 <= i < |init| ==> es[i] == init[i];
    }
  }

  /** Numbers: exactly the integers in [0, 2^64) survive, with their value; every other number is null. */
  lemma NormalizeInteger(i: int)
    ensures Normalize(Json.Number(Json.OfInteger(i))) == if 0 <= i < Json.U64_BOUND then UInt(i) else Null
  {
  }

  /** Strings are kept verbatim, with no case change or trimming. */
  lemma NormalizeString(s: string)
    ensures Normalize(Json.String(s)) == Str(s)
  {
  }

  /** Arrays, booleans, null and non-u64 numbers all become null; normalization never fails. */
  lemma NormalizeOtherShapes(v: Json.Value)
    requires v.Array? || v.Bool? || v.Null? || (v.Number? && !v.num.PosInt?)
    ensures Normalize(v) == Null
  {
  }

  /** Normalizing the JSON reading of a normal form gives it back: nothing in a normal form is lost. */
  lemma {:induction false} NormalizeEmbed(h: Value)
    requires NormalForm(h)
    ensures Normalize(Embed(h)) == h
    decreases h, 1
  {
    match h
    case UInt(_) =>
    case Str(_) =>
    case Null =>
    case Attrs(attrs) =>
      NormalizeEmbedEntries(attrs);
  }

  lemma {:induction false} NormalizeEmbedEntries(attrs: seq<Attribute>)
    requires forall i :: 0 <= i < |attrs| ==> NormalEntry(attrs[i])
    ensures NormalizeEntries(EmbedEntries(attrs)) == attrs
    decreases attrs, 0
  {
    if attrs != [] {
      var init := attrs[..|attrs| - 1];
      var last := attrs[|attrs| - 1];
      NormalizeEmbedEntries(init);
      NormalizeEmbed(last.value);
      LowerFixesExactlyLowercase(last.name);
      var es := EmbedEntries(attrs);
      assert es[..|es| - 1] == EmbedEntries(init);
    }
  }

  /** Normalization is idempotent through the JSON reading of its result. */
  lemma NormalizeIdempotent(v: Json.Value)
    ensures Normalize(Embed(Normalize(v))) == Normalize(v)
  {
    NormalizeEmbed(Normalize(v));
  }

  /**
   * Two payloads that differ only in the letter case of object keys, at any
   * depth, comparing object entries position by position in iteration order.
   */
  predicate KeyCaseVariants(v: Json.Value, w: Json.Value)
    decreases v
  {
    if v.Object? && w.Object? then
      && |v.entries| == |w.entries|
      && forall i :: 0 <= i < |v.entries| ==>
           && SameUpToCase(v.entries[i].0, w.entries[i].0)
           && KeyCaseVariants(v.entries[i].1, w.entries[i].1)
    else v == w
  }

  /**
   * Keys differing only in case normalize to the same key: payloads whose
   * entries agree position by position up to key case normalize identically.
   */
  lemma {:induction false} NormalizeIgnoresKeyCase(v: Json.Value, w: Json.Value)
    requires KeyCaseVariants(v, w)
    ensures Normalize(v) == Normalize(w)
    decreases v
  {
    if v.Object? && w.Object? {
      NormalizeObject(v.entries);
      NormalizeObject(w.entries);
      forall i | 0 <= i < |v.entries|
        ensures Normalize(v).attrs[i] == Normalize(w).attrs[i]
      {
        LowerEqualIff(v.entries[i].0, w.entries[i].0);
        NormalizeIgnoresKeyCase(v.entries[i].1, w.entries[i].1);
      }
    }
  }

  /** The nesting example: `{"A": {"B": 2}}` becomes `a -> (b -> 2)`. */
  lemma NestedExample()
    ensures Normalize(Json.Object([("A", Json.Object([("B", Json.Number(Json.PosInt(2)))]))]))
            == Attrs([Attribute("a", Attrs([Attribute("b", UInt(2), None)]), None)])
  {
    var inner := Json.Object([("B", Json.Number(Json.PosInt(2)))]);
    assert Lower("A") == "a" && Lower("B") == "b";
    assert Normalize(inner) == Attrs([Attribute("b", UInt(2), None)]) by {
      assert NormalizeEntries([("B", Json.Number(Json.PosInt(2)))]) == NormalizeEntries([]) + [Attribute("b", UInt(2), None)];
    }
    assert NormalizeEntries([("A", inner)]) == NormalizeEntries([]) + [Attribute("a", Normalize(inner), None)];
  }
}
