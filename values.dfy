/**
 * Field values of a stored document, and the merge that a `MergeAll` write
 * performs on them.
 */
module Values {
  import opened Wrappers

  /** Go's int64: the store keeps integer fields as 64-bit two's complement. */
  newtype int64 = x: int | -0x8000_0000_0000_0000 <= x < 0x8000_0000_0000_0000

  const MinInt64: int64 := -0x8000_0000_0000_0000
  const MaxInt64: int64 := 0x7fff_ffff_ffff_ffff

  /** The wrap-around modulus of int64 arithmetic. */
  const Modulus64: int := 0x1_0000_0000_0000_0000

  /** `x + 1` evaluated in int64: congruent to the mathematical sum modulo 2^64. */
  function Add1(x: int64): (r: int64)
    ensures (r as int - (x as int + 1)) % Modulus64 == 0
    ensures x < MaxInt64 ==> r as int == x as int + 1
  {
    if x == MaxInt64 then MinInt64 else x + 1
  }

  /** `x - 1` evaluated in int64: congruent to the mathematical difference modulo 2^64. */
  function Sub1(x: int64): (r: int64)
    ensures (r as int - (x as int - 1)) % Modulus64 == 0
    ensures MinInt64 < x ==> r as int == x as int - 1
  {
    if x == MinInt64 then MaxInt64 else x - 1
  }

  /** Subtracting one undoes adding one, even across the wrap-around point. */
  lemma Sub1Add1(x: int64)
    ensures Sub1(Add1(x)) == x
  {
  }

  /**
   * The closed set of values a field can hold: string, 64-bit integer,
   * boolean, array, nested map, and timestamp (an instant, as an integer count
   * of nanoseconds since the Unix epoch).
   */
  datatype Value =
    | Str(s: string)
    | Int(n: int64)
    | Bool(b: bool)
    | Arr(elems: seq<Value>)
    | Map(entries: map<string, Value>)
    | Time(instant: int)

  /** The semantic type a typed accessor expects. */
  datatype Kind = StringKind | IntKind | BoolKind | ArrayKind | MapKind | TimeKind

  function KindOf(v: Value): Kind {
    match v
    case Str(_) => StringKind
    case Int(_) => IntKind
    case Bool(_) => BoolKind
    case Arr(_) => ArrayKind
    case Map(_) => MapKind
    case Time(_) => TimeKind
  }

  /** A document body, and equally the entries of a nested map. */
  type Fields = map<string, Value>

  function Get(m: Fields, k: string): Option<Value> {
    if k in m then Some(m[k]) else None
  }

  /** Is `v` a nested map that a merge descends into (a non-empty map)? */
  predicate IsMergeable(v: Value) {
    v.Map? && v.entries != map[]
  }

  /**
   * The value a field holds after a `MergeAll` write of `v` onto a field that
   * held `prior`: a non-empty map is merged key by key into the prior map (or
   * into nothing when the prior value is absent or not a map); every other
   * value, arrays and empty maps included, replaces the prior value whole.
   */
  function MergeValue(prior: Option<Value>, v: Value): (r: Value)
    ensures !IsMergeable(v) ==> r == v
    ensures IsMergeable(v) ==> r.Map?
    decreases v, 1
  {
    if IsMergeable(v) then
      Map(MergeFields(if prior.Some? && prior.value.Map? then prior.value.entries else map[], v.entries))
    else
      v
  }

  /**
   * `base` after a `MergeAll` write of `data`: only the keys named in `data`
   * change, every other key keeps its value.
   */
  function MergeFields(base: Fields, data: Fields): (r: Fields)
    ensures r.Keys == base.Keys + data.Keys
    ensures forall k :: k in data ==> r[k] == MergeValue(Get(base, k), data[k])
    ensures forall k :: k in base && k !in data ==> r[k] == base[k]
    decreases Map(data), 0
  {
    map k | k in base.Keys + data.Keys ::
      if k in data then MergeValue(Get(base, k), data[k]) else base[k]
  }

  /** Merging onto nothing yields exactly what was written. */
  lemma {:induction false} MergeValueOntoNothing(v: Value)
    ensures MergeValue(None, v) == v
    decreases v, 1
  {
    if IsMergeable(v) {
      MergeFieldsOntoEmpty(v.entries);
    }
  }

  lemma {:induction false} MergeFieldsOntoEmpty(data: Fields)
    ensures MergeFields(map[], data) == data
    decreases Map(data), 0
  {
    forall k | k in data
      ensures MergeFields(map[], data)[k] == data[k]
    {
      MergeValueOntoNothing(data[k]);
    }
  }

  /**
   * Merge-writes are idempotent: writing the same value twice leaves the
   * field as writing it once, which is what makes a retried merge safe.
   */
  lemma {:induction false} MergeValueIdempotent(prior: Option<Value>, v: Value)
    ensures MergeValue(Some(MergeValue(prior, v)), v) == MergeValue(prior, v)
    decreases v, 1
  {
    if IsMergeable(v) {
      MergeFieldsIdempotent(if prior.Some? && prior.value.Map? then prior.value.entries else map[], v.entries);
    }
  }

  lemma {:induction false} MergeFieldsIdempotent(base: Fields, data: Fields)
    ensures MergeFields(MergeFields(base, data), data) == MergeFields(base, data)
    decreases Map(data), 0
  {
    var once := MergeFields(base, data);
    forall k | k in data
      ensures MergeFields(once, data)[k] == once[k]
    {
      MergeValueIdempotent(Get(base, k), data[k]);
    }
  }
}
