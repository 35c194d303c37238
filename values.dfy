/**
 * Conversion of Go host values into Lua values: `toLua` dispatches on the
 * value's type, and `mapToTable` and `sliceToTable` fill a fresh Lua table
 * entry by entry.
 */
module Values {

  /** A byte; Go strings and Lua strings are both sequences of bytes. */
  type byte = b: int | 0 <= b < 256
  type Bytes = seq<byte>

  /** Go's 64-bit integer ranges (`int` and `uint` are 64 bits wide here). */
  type int64 = x: int | -0x8000_0000_0000_0000 <= x < 0x8000_0000_0000_0000
  type uint64 = x: int | 0 <= x < 0x1_0000_0000_0000_0000

  /**
   * A key of a Go map: a value of the exact type `string`, or any other
   * comparable value (an int, a bool, a value of a named string type, ...),
   * which the model only names.
   */
  datatype MapKey = StrKey(s: Bytes) | OtherKey(id: nat)

  /**
   * A Go value as `toLua` tells them apart. `Map` and `Slice` stand for every
   * value whose reflect kind is Map or Slice, named types included; `Other` for
   * every remaining one: nil, bool, int32, uint8, named string types, arrays,
   * structs, pointers. Floating-point values are shown by the real they denote.
   */
  datatype HostValue =
    | Int(i: int64)
    | Int64(i: int64)
    | Uint(u: uint64)
    | Uint64(u: uint64)
    | Float32(f: real)
    | Float64(f: real)
    | Str(s: Bytes)
    | ByteSlice(b: Bytes)
    | Map(entries: map<MapKey, HostValue>)
    | Slice(elems: seq<HostValue>)
    | Other

  /** A key of a Lua table: a string or an integer. */
  datatype Key = SKey(s: Bytes) | IKey(i: int)

  /** The Lua values `toLua` produces. */
  datatype LValue = LNumber(n: real) | LString(s: Bytes) | LTable(fields: map<Key, LValue>)

  /**
   * What a call of `toLua` ends in: a Lua value, or a Go panic raised by the
   * unchecked `.(string)` assertion on a map key.
   */
  datatype Marshalled = Converted(value: LValue) | Panicked

  /** Every map reachable in `v` has only string keys. */
  predicate WellKeyed(v: HostValue) {
    match v
    case Map(m) => forall k :: k in m ==> k.StrKey? && WellKeyed(m[k])
    case Slice(s) => forall i :: 0 <= i < |s| ==> WellKeyed(s[i])
    case _ => true
  }

  /** The number a numeric host value denotes, for the six numeric types. */
  predicate IsNumber(v: HostValue) {
    v.Int? || v.Int64? || v.Uint? || v.Uint64? || v.Float32? || v.Float64?
  }

  function NumberOf(v: HostValue): real
    requires IsNumber(v)
  {
    match v
    case Int(i) => i as real
    case Int64(i) => i as real
    case Uint(u) => u as real
    case Uint64(u) => u as real
    case Float32(f) => f
    case Float64(f) => f
  }

  /**
   * The Lua value a well-keyed host value converts to: numbers become Lua
   * numbers, strings and byte slices Lua strings, maps tables under string
   * keys, slices tables under the integer keys 0 to n-1, and anything else the
   * number 0.
   */
  function Convert(v: HostValue): LValue
    requires WellKeyed(v)
  {
    match v
    case Int(i) => LNumber(i as real)
    case Int64(i) => LNumber(i as real)
    case Uint(u) => LNumber(u as real)
    case Uint64(u) => LNumber(u as real)
    case Float32(f) => LNumber(f)
    case Float64(f) => LNumber(f)
    case Str(s) => LString(s)
    case ByteSlice(b) => LString(b)
    case Map(m) => LTable(map key | key in StringKeys(m) :: key := Convert(m[StrKey(key.s)]))
    case Slice(s) => LTable(map key | key in IndexKeys(|s|) :: key := Convert(s[key.i]))
    case Other => LNumber(0.0)
  }

  /** The table keys of the string keys of a Go map. */
  function StringKeys(m: map<MapKey, HostValue>): (keys: set<Key>)
    ensures forall key :: key in keys <==> key.SKey? && StrKey(key.s) in m
  {
    set k | k in m && k.StrKey? :: SKey(k.s)
  }

  /** The integer table keys 0 to n-1. */
  function IndexKeys(n: nat): (keys: set<Key>)
    ensures forall key :: key in keys <==> key.IKey? && 0 <= key.i < n
  {
    set i | 0 <= i < n :: IKey(i)
  }

  /** The outcome of `toLua` on any host value. */
  function Marshal(v: HostValue): Marshalled {
    if WellKeyed(v) then Converted(Convert(v)) else Panicked
  }

  /** `toLua`: dispatch on the type of the host value. */
  method ToLua(v: HostValue) returns (r: Marshalled)
    ensures r == Marshal(v)
    decreases v, 1
  {
    match v
    case Int(i) => r := Converted(LNumber(i as real));
    case Int64(i) => r := Converted(LNumber(i as real));
    case Uint(u) => r := Converted(LNumber(u as real));
    case Uint64(u) => r := Converted(LNumber(u as real));
    case Float32(f) => r := Converted(LNumber(f));
    case Float64(f) => r := Converted(LNumber(f));
    case Str(s) => r := Converted(LString(s));
    case ByteSlice(b) => r := Converted(LString(b));
    case Map(_) => r := MapToTable(v);
    case Slice(_) => r := SliceToTable(v);
    case Other => r := Converted(LNumber(0.0));
  }

  /**
   * `mapToTable`: visits the keys in an unspecified order; each key must be a
   * string and its value goes into the table under that string.
   */
  method MapToTable(v: HostValue) returns (r: Marshalled)
    requires v.Map?
    ensures r == Marshal(v)
    decreases v, 0
  {
    var m := v.entries;
    var table: map<Key, LValue> := map[];
    var pending, done := m.Keys, {};
    while pending != {}
      invariant pending + done == m.Keys && pending !! done
      invariant forall k :: k in done ==> k.StrKey? && WellKeyed(m[k])
      invariant forall k :: k in done ==> SKey(k.s) in table && table[SKey(k.s)] == Convert(m[k])
      invariant forall key :: key in table ==> key.SKey? && StrKey(key.s) in done
      decreases pending
    {
      var k :| k in pending;
      if !k.StrKey? {
        return Panicked;
      }
      var x := ToLua(m[k]);
      if x.Panicked? {
        return Panicked;
      }
      table := table[SKey(k.s) := x.value];
      pending, done := pending - {k}, done + {k};
    }
    assert WellKeyed(v);
    var want := Convert(v).fields;
    forall key | key in want ensures key in table && table[key] == want[key] {
      var k :| k in m && SKey(k.s) == key;
      assert want[SKey(k.s)] == Convert(m[k]);
    }
    assert table == want;
    r := Converted(LTable(table));
  }

  /** `sliceToTable`: element i goes into the table under the integer key i, from 0 up. */
  method SliceToTable(v: HostValue) returns (r: Marshalled)
    requires v.Slice?
    ensures r == Marshal(v)
    decreases v, 0
  {
    var s := v.elems;
    var table: map<Key, LValue> := map[];
    var i := 0;
    while i < |s|
      invariant 0 <= i <= |s|
      invariant forall j :: 0 <= j < i ==> WellKeyed(s[j])
      invariant forall j :: 0 <= j < i ==> IKey(j) in table && table[IKey(j)] == Convert(s[j])
      invariant forall key :: key in table ==> key.IKey? && 0 <= key.i < i
    {
      var x := ToLua(s[i]);
      if x.Panicked? {
        assert !WellKeyed(v) by { assert !WellKeyed(s[i]); }
        return Panicked;
      }
      table := table[IKey(i) := x.value];
      i := i + 1;
    }
    assert WellKeyed(v);
    var want := Convert(v).fields;
    forall key | key in want ensures key in table && table[key] == want[key] {
      assert want[IKey(key.i)] == Convert(s[key.i]);
    }
    assert table == want;
    r := Converted(LTable(table));
  }

  // ---------------------------------------------------------------------------
  // Properties of the conversion.

  /**
   * Each numeric type becomes a Lua number of the same value; a string and a
   * byte slice both become a Lua string with the same bytes (a byte slice is
   * never turned into a table); every other non-map, non-slice value becomes 0.
   * None of these panics.
   */
  lemma ScalarCases(v: HostValue)
    requires !v.Map? && !v.Slice?
    ensures Marshal(v).Converted? && !Marshal(v).value.LTable?
    ensures IsNumber(v) ==> Marshal(v).value == LNumber(NumberOf(v))
    ensures v.Str? ==> Marshal(v).value == LString(v.s)
    ensures v.ByteSlice? ==> Marshal(v).value == LString(v.b) == Marshal(Str(v.b)).value
    ensures v.Other? ==> Marshal(v).value == LNumber(0.0)
  {
  }

  /**
   * A slice of n elements becomes a table whose keys are exactly the integers
   * 0 to n-1, element i under key i: zero-based and in order.
   */
  lemma SliceLayout(s: seq<HostValue>)
    requires WellKeyed(Slice(s))
    ensures Convert(Slice(s)).fields.Keys == IndexKeys(|s|)
    ensures forall i :: 0 <= i < |s| ==> Convert(Slice(s)).fields[IKey(i)] == Convert(s[i])
  {
    var t := Convert(Slice(s)).fields;
    forall i | 0 <= i < |s| ensures t[IKey(i)] == Convert(s[i]) {
      assert IKey(i) in IndexKeys(|s|);
    }
  }

  /**
   * A border of a Lua table in the sense of the length operator `#` (section
   * 2.5.5 of the Lua 5.1 reference manual): index 0 or a present integer key
   * whose successor is absent.
   */
  predicate IsBorder(t: map<Key, LValue>, b: nat) {
    (b == 0 || IKey(b) in t) && IKey(b + 1) !in t
  }

  /**
   * Because the elements sit at 0 to n-1, Lua's length operator sees a slice of
   * n > 0 elements as a sequence of n-1: its only border is n-1, and element 0
   * lies outside the range 1..#t that `ipairs` walks.
   */
  lemma SliceBorder(s: seq<HostValue>, b: nat)
    requires WellKeyed(Slice(s))
    ensures IsBorder(Convert(Slice(s)).fields, b) <==> b == (if s == [] then 0 else |s| - 1)
  {
    SliceLayout(s);
  }

  lemma {:induction false} StringKeysCount(m: map<MapKey, HostValue>)
    requires forall k :: k in m ==> k.StrKey?
    ensures |StringKeys(m)| == |m|
    decreases |m|
  {
    if m != map[] {
      var k :| k in m;
      var rest := m - {k};
      assert |rest| == |m| - 1 by { assert rest.Keys == m.Keys - {k}; }
      StringKeysCount(rest);
      assert StringKeys(m) == StringKeys(rest) + {SKey(k.s)};
      assert SKey(k.s) !in StringKeys(rest);
    } else {
      assert StringKeys(m) == {};
    }
  }

  /**
   * A map with string keys becomes a table with one string key per map key and
   * no other key, each holding the conversion of that key's value.
   */
  lemma MapLayout(m: map<MapKey, HostValue>)
    requires WellKeyed(Map(m))
    ensures forall k :: k in m ==>
              SKey(k.s) in Convert(Map(m)).fields && Convert(Map(m)).fields[SKey(k.s)] == Convert(m[k])
    ensures forall key :: key in Convert(Map(m)).fields ==> key.SKey? && StrKey(key.s) in m
    ensures |Convert(Map(m)).fields| == |m|
  {
    var t := Convert(Map(m)).fields;
    forall k | k in m ensures SKey(k.s) in t && t[SKey(k.s)] == Convert(m[k]) {
      assert SKey(k.s) in StringKeys(m);
      assert StrKey(k.s) == k;
    }
    StringKeysCount(m);
    assert t.Keys == StringKeys(m);
  }

  /**
   * The unchecked key assertion panics on a non-string key, and a panic while
   * converting any element or value ends the whole conversion in a panic.
   */
  lemma Panics(v: HostValue)
    ensures v.Map? && (exists k :: k in v.entries && k.OtherKey?) ==> Marshal(v) == Panicked
    ensures v.Map? && (exists k :: k in v.entries && Marshal(v.entries[k]).Panicked?) ==> Marshal(v) == Panicked
    ensures v.Slice? && (exists i :: 0 <= i < |v.elems| && Marshal(v.elems[i]).Panicked?) ==> Marshal(v) == Panicked
  {
  }
}
