/**
 * Saving and loading (src/saveload_system.cpp): the module-name codec, the
 * GameData <-> JSON conversion and the singleton's saved state.
 *
 * JSON values are an abstract tree (nlohmann's number kinds kept apart as
 * JInt and JFloat); the file system is an abstract store from paths to
 * JSON trees, and whether a file opens for writing is a parameter.
 */
module SaveLoad {
  import opened Wrappers
  import opened Common
  import opened Components

  // ---- the module-name codec ----

  /** moduleTypeToString as written: FAST_CANNON has no case and falls to "UNKNOWN". */
  function ModuleTypeToString(t: ModuleType): (s: string)
    ensures s == "UNKNOWN" <==> t == FAST_CANNON
  {
    match t
    case EMPTY => "EMPTY"
    case PLATFORM => "PLATFORM"
    case STEERING_WHEEL => "STEERING_WHEEL"
    case SIMPLE_CANNON => "SIMPLE_CANNON"
    case LASER_WEAPON => "LASER_WEAPON"
    case HELPER_BUNNY => "HELPER_BUNNY"
    case BUBBLE_MOD => "BUBBLE_MOD"
    case HEAL => "HEAL"
    case _ => "UNKNOWN"
  }

  /** moduleTypeFromString as written: one of the eight names, else the exception (None). */
  function ModuleTypeFromString(s: string): (r: Option<ModuleType>)
    ensures r.Some? ==> r.value != FAST_CANNON
  {
    if s == "EMPTY" then Some(EMPTY)
    else if s == "PLATFORM" then Some(PLATFORM)
    else if s == "STEERING_WHEEL" then Some(STEERING_WHEEL)
    else if s == "SIMPLE_CANNON" then Some(SIMPLE_CANNON)
    else if s == "LASER_WEAPON" then Some(LASER_WEAPON)
    else if s == "HELPER_BUNNY" then Some(HELPER_BUNNY)
    else if s == "BUBBLE_MOD" then Some(BUBBLE_MOD)
    else if s == "HEAL" then Some(HEAL)
    else None
  }

  /**
   * The written codec: the eight named types read back as themselves, the
   * names are distinct, any string that is not a name is rejected (among
   * them "UNKNOWN"), and every accepted string is a name.
   */
  lemma WrittenCodec()
    ensures forall t :: t != FAST_CANNON ==> ModuleTypeFromString(ModuleTypeToString(t)) == Some(t)
    ensures forall a, b :: ModuleTypeToString(a) == ModuleTypeToString(b) ==> a == b
    ensures ModuleTypeFromString("UNKNOWN") == None
    ensures forall s :: ModuleTypeFromString(s).Some? ==> ModuleTypeToString(ModuleTypeFromString(s).value) == s
  {
  }

  /** The written codec loses FAST_CANNON: it is saved as "UNKNOWN", and loading that throws. */
  lemma FastCannonIsNotReadBack()
    ensures ModuleTypeToString(FAST_CANNON) == "UNKNOWN"
    ensures ModuleTypeFromString(ModuleTypeToString(FAST_CANNON)) == None
  {
  }

  /** The codec with a name for FAST_CANNON too; saving and loading use this one. */
  function ModuleName(t: ModuleType): string
  {
    if t == FAST_CANNON then "FAST_CANNON" else ModuleTypeToString(t)
  }

  function ModuleFromName(s: string): Option<ModuleType>
  {
    if s == "FAST_CANNON" then Some(FAST_CANNON) else ModuleTypeFromString(s)
  }

  /** The corrected codec is a bijection between all nine types and their names. */
  lemma CorrectedCodec()
    ensures forall t :: ModuleFromName(ModuleName(t)) == Some(t)
    ensures forall s :: ModuleFromName(s).Some? ==> ModuleName(ModuleFromName(s).value) == s
    ensures forall t :: ModuleName(t) != "UNKNOWN"
    ensures ModuleFromName("UNKNOWN") == None
    ensures forall t :: t != FAST_CANNON ==> ModuleName(t) == ModuleTypeToString(t)
  {
    WrittenCodec();
  }

  // ---- JSON and GameData ----

  datatype Json =
    | JNull
    | JBool(b: bool)
    | JInt(i: int)
    | JFloat(f: real)
    | JStr(s: string)
    | JArr(items: seq<Json>)
    | JObj(fields: map<string, Json>)

  datatype GameData = GameData(
    playerName: string,
    levelName: string,
    shipHealth: real,
    shipMaxHealth: real,
    shipIsExpanded: bool,
    usedModules: seq<seq<ModuleType>>,
    unusedModules: map<ModuleType, nat>)

  const TWO_31: int := 0x8000_0000
  const TWO_32: int := 0x1_0000_0000

  /** static_cast<int> of a JSON integer: wrap to 32-bit two's complement. */
  function AsInt32(i: int): (r: int)
    ensures -TWO_31 <= r < TWO_31
    ensures -TWO_31 <= i < TWO_31 ==> r == i
  {
    (i + TWO_31) % TWO_32 - TWO_31
  }

  /** int to uint conversion, modulo 2^32. */
  function AsUint32(i: int): (r: nat)
    ensures r < TWO_32
    ensures 0 <= i < TWO_32 ==> r == i
  {
    i % TWO_32
  }

  /** A uint count read back through get<int> and stored into a uint is unchanged. */
  lemma CountReadBack(n: nat)
    requires n < TWO_32
    ensures AsUint32(AsInt32(n)) == n
  {
    if n >= TWO_31 {
      assert AsInt32(n) == n - TWO_32;
    }
  }

  /** get<int>: integers wrap, floats truncate, booleans give 0 or 1, anything else throws. */
  function GetInt(j: Json): Option<int>
  {
    match j
    case JInt(i) => Some(AsInt32(i))
    case JFloat(f) => Some(Trunc(f))
    case JBool(b) => Some(if b then 1 else 0)
    case _ => None
  }

  function GetString(j: Json): Option<string>
  {
    match j
    case JStr(s) => Some(s)
    case _ => None
  }

  /** std::string's operator<: lexicographic on character codes, a proper prefix first. */
  predicate KeyLess(a: string, b: string)
    decreases |a|
  {
    if a == [] then b != []
    else if b == [] then false
    else a[0] < b[0] || (a[0] == b[0] && KeyLess(a[1..], b[1..]))
  }

  /** KeyLess is a strict total order on strings. */
  lemma {:induction false} KeyLessTotal(a: string, b: string)
    decreases |a|
    ensures a == b || KeyLess(a, b) || KeyLess(b, a)
    ensures !(KeyLess(a, b) && KeyLess(b, a))
  {
    if a != [] && b != [] && a[0] == b[0] {
      KeyLessTotal(a[1..], b[1..]);
      if a[1..] == b[1..] {
        assert a == [a[0]] + a[1..] && b == [b[0]] + b[1..];
      }
    }
  }

  lemma {:induction false} KeyLessTrans(a: string, b: string, c: string)
    requires KeyLess(a, b) && KeyLess(b, c)
    decreases |a|
    ensures KeyLess(a, c)
  {
    if a != [] && a[0] == b[0] && b[0] == c[0] {
      KeyLessTrans(a[1..], b[1..], c[1..]);
    }
  }

  /** k is the least of the keys ks. */
  predicate IsLeast(k: string, ks: set<string>)
  {
    k in ks && forall k' :: k' in ks && k' != k ==> KeyLess(k, k')
  }

  /** Every finite non-empty set of keys has a least key. */
  lemma {:induction false} LeastKeyExists(ks: set<string>)
    requires ks != {}
    decreases |ks|
    ensures exists k :: IsLeast(k, ks)
  {
    var x :| x in ks;
    if ks - {x} == {} {
      assert ks == {x};
      assert IsLeast(x, ks);
    } else {
      LeastKeyExists(ks - {x});
      var m :| IsLeast(m, ks - {x});
      KeyLessTotal(m, x);
      if KeyLess(m, x) {
        assert IsLeast(m, ks);
      } else {
        forall k' | k' in ks && k' != x
          ensures KeyLess(x, k')
        {
          if k' != m {
            KeyLessTrans(x, m, k');
          }
        }
        assert IsLeast(x, ks);
      }
    }
  }

  /** The least key of ks is the only key with that property. */
  lemma LeastKeyUnique(ks: set<string>)
    ensures forall a, b :: IsLeast(a, ks) && IsLeast(b, ks) ==> a == b
  {
    forall a, b | IsLeast(a, ks) && IsLeast(b, ks)
      ensures a == b
    {
      KeyLessTotal(a, b);
    }
  }

  /** The keys of a JSON object in the order a std::map holds them: each once, ascending. */
  function SortedKeys(ks: set<string>): (r: seq<string>)
    decreases |ks|
    ensures |r| == |ks| && forall i :: 0 <= i < |r| ==> r[i] in ks
    ensures forall k :: k in ks ==> k in r
    ensures forall i, j :: 0 <= i < j < |r| ==> KeyLess(r[i], r[j])
  {
    if ks == {} then []
    else
      LeastKeyExists(ks);
      LeastKeyUnique(ks);
      var k :| IsLeast(k, ks);
      var rest := SortedKeys(ks - {k});
      assert forall i :: 0 <= i < |rest| ==> rest[i] in ks - {k};
      [k] + rest
  }

  /**
   * What a range-for visits: an array's items, nothing for null, an
   * object's values in ascending key order, the value itself for a primitive.
   */
  function Items(j: Json): Option<seq<Json>>
  {
    match j
    case JArr(xs) => Some(xs)
    case JNull => Some([])
    case JObj(m) =>
      var ks := SortedKeys(m.Keys);
      Some(seq(|ks|, i requires 0 <= i < |ks| => m[ks[i]]))
    case _ => Some([j])
  }

  /** A range-for over an object visits each of its values once, in ascending key order. */
  lemma ObjectItems(m: map<string, Json>)
    ensures var ks := SortedKeys(m.Keys);
      Items(JObj(m)).Some? && |Items(JObj(m)).value| == |m|
      && (forall i :: 0 <= i < |ks| ==> Items(JObj(m)).value[i] == m[ks[i]])
      && (forall i, j :: 0 <= i < j < |ks| ==> KeyLess(ks[i], ks[j]))
  {
  }

  /** Distinct types get distinct names. */
  ghost predicate Injective(name: ModuleType -> string)
  {
    forall a, b :: name(a) == name(b) ==> a == b
  }

  /** Distinct accepted strings give distinct types. */
  ghost predicate ParseInjective<T>(parse: string -> Option<T>)
  {
    forall a, b :: parse(a).Some? && parse(a) == parse(b) ==> a == b
  }

  /** Both codecs, as written and corrected, are injective in both directions. */
  lemma CodecsInjective()
    ensures Injective(ModuleTypeToString) && ParseInjective(ModuleTypeFromString)
    ensures Injective(ModuleName) && ParseInjective(ModuleFromName)
  {
    WrittenCodec();
    CorrectedCodec();
    forall a, b | ModuleTypeFromString(a).Some? && ModuleTypeFromString(a) == ModuleTypeFromString(b)
      ensures a == b
    {
      assert ModuleTypeToString(ModuleTypeFromString(a).value) == a;
      assert ModuleTypeToString(ModuleTypeFromString(b).value) == b;
    }
    forall a, b | ModuleFromName(a).Some? && ModuleFromName(a) == ModuleFromName(b)
      ensures a == b
    {
      assert ModuleName(ModuleFromName(a).value) == a;
      assert ModuleName(ModuleFromName(b).value) == b;
    }
    forall a, b | ModuleName(a) == ModuleName(b)
      ensures a == b
    {
      assert ModuleFromName(ModuleName(a)) == Some(a);
    }
  }

  function RowJson(row: seq<ModuleType>, name: ModuleType -> string): (r: seq<Json>)
    ensures |r| == |row| && forall k :: 0 <= k < |row| ==> r[k] == JStr(name(row[k]))
  {
    seq(|row|, k requires 0 <= k < |row| => JStr(name(row[k])))
  }

  function UsedJson(rows: seq<seq<ModuleType>>, name: ModuleType -> string): (r: seq<Json>)
    ensures |r| == |rows| && forall i :: 0 <= i < |rows| ==> r[i] == JArr(RowJson(rows[i], name))
  {
    seq(|rows|, i requires 0 <= i < |rows| => JArr(RowJson(rows[i], name)))
  }

  /** The inventory object keyed by module name. */
  function UnusedFields(u: map<ModuleType, nat>, name: ModuleType -> string): (m: map<string, Json>)
    requires Injective(name)
    ensures forall t :: t in u ==> name(t) in m && m[name(t)] == JInt(u[t])
  {
    map t | t in u :: name(t) := JInt(u[t])
  }

  /** The inventory object has no key but the names of inventory entries. */
  lemma UnusedFieldsKeys(u: map<ModuleType, nat>, name: ModuleType -> string, k: string)
    requires Injective(name)
    requires k in UnusedFields(u, name)
    ensures exists t :: t in u && name(t) == k
  {
  }

  /** The unused_modules value: left null when there is nothing to write. */
  function UnusedJson(u: map<ModuleType, nat>, name: ModuleType -> string): Json
    requires Injective(name)
  {
    if |u| == 0 then JNull else JObj(UnusedFields(u, name))
  }

  const PLAYER_NAME_KEY: string := "playerName"
  const LEVEL_NAME_KEY: string := "levelName"
  const HEALTH_KEY: string := "ship_health"
  const MAX_HEALTH_KEY: string := "ship_maxHealth"
  const EXPANDED_KEY: string := "ship_is_expanded"
  const USED_KEY: string := "used_modules"
  const UNUSED_KEY: string := "unused_modules"

  predicate HasKeys(f: map<string, Json>)
  {
    PLAYER_NAME_KEY in f && LEVEL_NAME_KEY in f && HEALTH_KEY in f && MAX_HEALTH_KEY in f &&
    EXPANDED_KEY in f && USED_KEY in f && UNUSED_KEY in f
  }

  /** toJson: the seven keys, the grid row by row as names, the inventory keyed by name. */
  function ToJsonSpec(d: GameData, name: ModuleType -> string): (j: Json)
    requires Injective(name)
    ensures j.JObj? && HasKeys(j.fields)
    ensures j.fields[PLAYER_NAME_KEY] == JStr(d.playerName) && j.fields[LEVEL_NAME_KEY] == JStr(d.levelName)
    ensures j.fields[HEALTH_KEY] == JFloat(d.shipHealth) && j.fields[MAX_HEALTH_KEY] == JFloat(d.shipMaxHealth)
    ensures j.fields[EXPANDED_KEY] == JBool(d.shipIsExpanded)
    ensures j.fields[USED_KEY] == JArr(UsedJson(d.usedModules, name))
    ensures j.fields[UNUSED_KEY] == UnusedJson(d.unusedModules, name)
  {
    JObj(map[
      PLAYER_NAME_KEY := JStr(d.playerName),
      LEVEL_NAME_KEY := JStr(d.levelName),
      HEALTH_KEY := JFloat(d.shipHealth),
      MAX_HEALTH_KEY := JFloat(d.shipMaxHealth),
      EXPANDED_KEY := JBool(d.shipIsExpanded),
      USED_KEY := JArr(UsedJson(d.usedModules, name)),
      UNUSED_KEY := UnusedJson(d.unusedModules, name)])
  }

  function ItemModule(j: Json, parse: string -> Option<ModuleType>): Option<ModuleType>
  {
    match GetString(j)
    case None => None
    case Some(s) => parse(s)
  }

  function ParseRow(items: seq<Json>, parse: string -> Option<ModuleType>): (r: Option<seq<ModuleType>>)
    ensures r.Some? <==> forall k :: 0 <= k < |items| ==> ItemModule(items[k], parse).Some?
    ensures r.Some? ==> |r.value| == |items| && forall k :: 0 <= k < |items| ==> ItemModule(items[k], parse) == Some(r.value[k])
  {
    if forall k :: 0 <= k < |items| ==> ItemModule(items[k], parse).Some? then
      Some(seq(|items|, k requires 0 <= k < |items| => ItemModule(items[k], parse).value))
    else None
  }

  function RowOf(j: Json, parse: string -> Option<ModuleType>): Option<seq<ModuleType>>
  {
    match Items(j)
    case None => None
    case Some(xs) => ParseRow(xs, parse)
  }

  function ParseRows(rows: seq<Json>, parse: string -> Option<ModuleType>): (r: Option<seq<seq<ModuleType>>>)
    ensures r.Some? <==> forall i :: 0 <= i < |rows| ==> RowOf(rows[i], parse).Some?
    ensures r.Some? ==> |r.value| == |rows| && forall i :: 0 <= i < |rows| ==> RowOf(rows[i], parse) == Some(r.value[i])
  {
    if forall i :: 0 <= i < |rows| ==> RowOf(rows[i], parse).Some? then
      Some(seq(|rows|, i requires 0 <= i < |rows| => RowOf(rows[i], parse).value))
    else None
  }

  function ParseUsed(j: Json, parse: string -> Option<ModuleType>): Option<seq<seq<ModuleType>>>
  {
    match Items(j)
    case None => None
    case Some(rows) => ParseRows(rows, parse)
  }

  /** Every key names a module and every value reads as an int. */
  predicate UnusedReadable<T(==)>(m: map<string, Json>, parse: string -> Option<T>)
  {
    forall k :: k in m ==> parse(k).Some? && GetInt(m[k]).Some?
  }

  /** The inventory read from a readable object: each key's type gets its count as a uint. */
  function UnusedOf<T(==)>(m: map<string, Json>, parse: string -> Option<T>): (u: map<T, nat>)
    requires UnusedReadable(m, parse) && ParseInjective(parse)
    ensures forall k :: k in m ==> parse(k).value in u && u[parse(k).value] == AsUint32(GetInt(m[k]).value)
  {
    map k | k in m :: parse(k).value := AsUint32(GetInt(m[k]).value)
  }

  /** The inventory read back has no type but those its keys name. */
  lemma UnusedOfKeys<T>(m: map<string, Json>, parse: string -> Option<T>, t: T)
    requires UnusedReadable(m, parse) && ParseInjective(parse)
    requires t in UnusedOf(m, parse)
    ensures exists k :: k in m && parse(k) == Some(t)
  {
  }

  /** A grid stored as an object is read row by row in ascending key order, as the range-for reads it. */
  lemma ObjectGridReadInKeyOrder()
    ensures ParseUsed(JObj(map["b" := JArr([JStr("PLATFORM")]), "a" := JArr([JStr("EMPTY")])]), ModuleTypeFromString)
      == Some([[EMPTY], [PLATFORM]])
  {
    var m := map["b" := JArr([JStr("PLATFORM")]), "a" := JArr([JStr("EMPTY")])];
    TwoKeysAscend(m.Keys);
    var rows := Items(JObj(m)).value;
    assert rows == [JArr([JStr("EMPTY")]), JArr([JStr("PLATFORM")])];
    OneNameRow("EMPTY", EMPTY);
    OneNameRow("PLATFORM", PLATFORM);
    TwoRows(rows[0], rows[1], [EMPTY], [PLATFORM], ModuleTypeFromString);
  }

  lemma TwoRows(r1: Json, r2: Json, t1: seq<ModuleType>, t2: seq<ModuleType>, parse: string -> Option<ModuleType>)
    requires RowOf(r1, parse) == Some(t1) && RowOf(r2, parse) == Some(t2)
    ensures ParseRows([r1, r2], parse) == Some([t1, t2])
  {
    var used := ParseRows([r1, r2], parse);
    assert used.Some? && |used.value| == 2 && used.value[0] == t1 && used.value[1] == t2;
    assert used.value == [t1, t2];
  }

  lemma TwoKeysAscend(ks: set<string>)
    requires ks == {"a", "b"}
    ensures SortedKeys(ks) == ["a", "b"]
  {
    var r := SortedKeys(ks);
    assert KeyLess("a", "b");
  }

  lemma OneNameRow(n: string, t: ModuleType)
    requires ModuleTypeFromString(n) == Some(t)
    ensures RowOf(JArr([JStr(n)]), ModuleTypeFromString) == Some([t])
  {
    var items := [JStr(n)];
    assert ItemModule(items[0], ModuleTypeFromString) == Some(t);
    var r := ParseRow(items, ModuleTypeFromString);
    assert r.Some? && |r.value| == 1 && r.value[0] == t;
    assert r.value == [t];
  }

  /** Iterating unused_modules with key(): null and [] give nothing, a non-empty non-object throws. */
  function ParseUnused(j: Json, parse: string -> Option<ModuleType>): Option<map<ModuleType, nat>>
    requires ParseInjective(parse)
  {
    match j
    case JNull => Some(map[])
    case JArr(xs) => if xs == [] then Some(map[]) else None
    case JObj(m) => if UnusedReadable(m, parse) then Some(UnusedOf(m, parse)) else None
    case _ => None
  }

  /** The scalar fields in fromJson's order: the two names, the healths through get<int>, the flag via int. */
  function ScalarsOf(f: map<string, Json>): Option<(string, string, int, int, int)>
    requires HasKeys(f)
  {
    match (GetString(f[PLAYER_NAME_KEY]), GetString(f[LEVEL_NAME_KEY]), GetInt(f[HEALTH_KEY]),
           GetInt(f[MAX_HEALTH_KEY]), GetInt(f[EXPANDED_KEY]))
    case (Some(pn), Some(ln), Some(h), Some(mh), Some(ex)) => Some((pn, ln, h, mh, ex))
    case _ => None
  }

  /** fromJson: None wherever the C++ code throws (a missing key, a wrong type, an unknown name). */
  function FromJsonSpec(j: Json, parse: string -> Option<ModuleType>): Option<GameData>
    requires ParseInjective(parse)
  {
    if !j.JObj? || !HasKeys(j.fields) then None
    else
      var f := j.fields;
      match (ScalarsOf(f), ParseUsed(f[USED_KEY], parse), ParseUnused(f[UNUSED_KEY], parse))
      case (Some(sc), Some(used), Some(unused)) =>
        Some(GameData(sc.0, sc.1, sc.2 as real, sc.3 as real, sc.4 != 0, used, unused))
      case _ => None
  }

  /** The counts as get<int> and the uint store leave them. */
  function ReloadedCounts(u: map<ModuleType, nat>): (r: map<ModuleType, nat>)
    ensures forall t :: t in r <==> t in u
    ensures forall t :: t in u ==> r[t] == AsUint32(AsInt32(u[t]))
  {
    map t | t in u :: AsUint32(AsInt32(u[t]))
  }

  /** What a save-and-load gives back: healths truncated to whole numbers, counts modulo 2^32. */
  function Reloaded(d: GameData): (r: GameData)
    ensures r.playerName == d.playerName && r.levelName == d.levelName
    ensures r.shipIsExpanded == d.shipIsExpanded && r.usedModules == d.usedModules
    ensures r.unusedModules.Keys == d.unusedModules.Keys
  {
    d.(shipHealth := Trunc(d.shipHealth) as real,
       shipMaxHealth := Trunc(d.shipMaxHealth) as real,
       unusedModules := ReloadedCounts(d.unusedModules))
  }

  /** Every module the data mentions reads back under the codec. */
  ghost predicate CodecCovers(d: GameData, name: ModuleType -> string, parse: string -> Option<ModuleType>)
  {
    (forall i, k :: 0 <= i < |d.usedModules| && 0 <= k < |d.usedModules[i]| ==>
       parse(name(d.usedModules[i][k])) == Some(d.usedModules[i][k])) &&
    (forall t :: t in d.unusedModules ==> parse(name(t)) == Some(t))
  }

  lemma RowRoundTrip(row: seq<ModuleType>, name: ModuleType -> string, parse: string -> Option<ModuleType>)
    requires forall k :: 0 <= k < |row| ==> parse(name(row[k])) == Some(row[k])
    ensures ParseRow(RowJson(row, name), parse) == Some(row)
  {
    var items := RowJson(row, name);
    assert forall k :: 0 <= k < |row| ==> ItemModule(items[k], parse) == Some(row[k]);
    var r := ParseRow(items, parse);
    assert |r.value| == |row| && forall k :: 0 <= k < |row| ==> r.value[k] == row[k];
    assert r.value == row;
  }

  lemma UsedRoundTrip(rows: seq<seq<ModuleType>>, name: ModuleType -> string, parse: string -> Option<ModuleType>)
    requires forall i, k :: 0 <= i < |rows| && 0 <= k < |rows[i]| ==> parse(name(rows[i][k])) == Some(rows[i][k])
    ensures ParseUsed(JArr(UsedJson(rows, name)), parse) == Some(rows)
  {
    var items := UsedJson(rows, name);
    forall i | 0 <= i < |rows|
      ensures RowOf(items[i], parse) == Some(rows[i])
    {
      RowRoundTrip(rows[i], name, parse);
    }
    var r := ParseRows(items, parse);
    assert |r.value| == |rows| && forall i :: 0 <= i < |rows| ==> r.value[i] == rows[i];
    assert r.value == rows;
  }

  /** Every key toJson writes for the inventory names a module the codec reads back. */
  lemma FieldsReadable(u: map<ModuleType, nat>, name: ModuleType -> string, parse: string -> Option<ModuleType>)
    requires Injective(name)
    requires forall t :: t in u ==> parse(name(t)) == Some(t)
    ensures UnusedReadable(UnusedFields(u, name), parse)
  {
    var m := UnusedFields(u, name);
    forall k | k in m
      ensures parse(k).Some? && GetInt(m[k]).Some?
    {
      UnusedFieldsKeys(u, name, k);
      var t :| t in u && name(t) == k;
    }
  }

  /** Each inventory entry comes back under its own type, with its count through get<int> and the uint store. */
  lemma EntriesReadBack(u: map<ModuleType, nat>, name: ModuleType -> string, parse: string -> Option<ModuleType>)
    requires Injective(name) && ParseInjective(parse)
    requires forall t :: t in u ==> parse(name(t)) == Some(t)
    requires UnusedReadable(UnusedFields(u, name), parse)
    ensures forall t :: t in u ==>
              t in UnusedOf(UnusedFields(u, name), parse) && UnusedOf(UnusedFields(u, name), parse)[t] == AsUint32(AsInt32(u[t]))
  {
    var m := UnusedFields(u, name);
    forall t | t in u
      ensures t in UnusedOf(m, parse) && UnusedOf(m, parse)[t] == AsUint32(AsInt32(u[t]))
    {
      assert name(t) in m;
    }
  }

  /** Nothing else comes back: every type read back was in the inventory. */
  lemma NoEntryInvented(u: map<ModuleType, nat>, name: ModuleType -> string, parse: string -> Option<ModuleType>)
    requires Injective(name) && ParseInjective(parse)
    requires forall t :: t in u ==> parse(name(t)) == Some(t)
    requires UnusedReadable(UnusedFields(u, name), parse)
    ensures forall t :: t in UnusedOf(UnusedFields(u, name), parse) ==> t in u
  {
    var m := UnusedFields(u, name);
    var got := UnusedOf(m, parse);
    forall t | t in got
      ensures t in u
    {
      UnusedOfKeys(m, parse, t);
      var k :| k in m && parse(k) == Some(t);
      UnusedFieldsKeys(u, name, k);
      var t' :| t' in u && name(t') == k;
    }
  }

  lemma FieldsReadBack(u: map<ModuleType, nat>, name: ModuleType -> string, parse: string -> Option<ModuleType>)
    requires Injective(name) && ParseInjective(parse)
    requires forall t :: t in u ==> parse(name(t)) == Some(t)
    requires UnusedReadable(UnusedFields(u, name), parse)
    ensures UnusedOf(UnusedFields(u, name), parse) == ReloadedCounts(u)
  {
    EntriesReadBack(u, name, parse);
    NoEntryInvented(u, name, parse);
    SameMaps(UnusedOf(UnusedFields(u, name), parse), ReloadedCounts(u));
  }

  lemma UnusedRoundTrip(u: map<ModuleType, nat>, name: ModuleType -> string, parse: string -> Option<ModuleType>)
    requires Injective(name) && ParseInjective(parse)
    requires forall t :: t in u ==> parse(name(t)) == Some(t)
    ensures ParseUnused(UnusedJson(u, name), parse) == Some(ReloadedCounts(u))
  {
    if |u| == 0 {
      assert u == map[];
    } else {
      FieldsReadable(u, name, parse);
      FieldsReadBack(u, name, parse);
      ParseReadableObject(UnusedFields(u, name), parse);
    }
  }

  lemma ParseReadableObject(m: map<string, Json>, parse: string -> Option<ModuleType>)
    requires UnusedReadable(m, parse) && ParseInjective(parse)
    ensures ParseUnused(JObj(m), parse) == Some(UnusedOf(m, parse))
  {
  }

  /** Two maps with the same keys and the same value at each key are equal. */
  lemma SameMaps<K, V>(a: map<K, V>, b: map<K, V>)
    requires forall k :: k in a ==> k in b && a[k] == b[k]
    requires forall k :: k in b ==> k in a
    ensures a == b
  {
  }

  /**
   * fromJson(toJson(d)) gives back d, up to the int truncation of the two
   * healths and the uint round trip of the counts, whenever the codec reads
   * back every module d mentions.
   */
  lemma JsonRoundTrip(d: GameData, name: ModuleType -> string, parse: string -> Option<ModuleType>)
    requires Injective(name) && ParseInjective(parse)
    requires CodecCovers(d, name, parse)
    ensures FromJsonSpec(ToJsonSpec(d, name), parse) == Some(Reloaded(d))
  {
    UsedRoundTrip(d.usedModules, name, parse);
    UnusedRoundTrip(d.unusedModules, name, parse);
  }

  /** With the corrected codec every GameData survives a save and a load, as Reloaded says. */
  lemma SaveLoadRoundTrip(d: GameData)
    ensures Injective(ModuleName) && ParseInjective(ModuleFromName)
    ensures FromJsonSpec(ToJsonSpec(d, ModuleName), ModuleFromName) == Some(Reloaded(d))
  {
    CodecsInjective();
    CorrectedCodec();
    JsonRoundTrip(d, ModuleName, ModuleFromName);
  }

  lemma TruncWhole(x: real)
    requires x.Floor as real == x
    ensures Trunc(x) as real == x
  {
    if x < 0.0 {
      assert (-x).Floor == -x.Floor;
    }
  }

  /** Whole healths and uint-sized counts come back exactly. */
  lemma ReloadedExact(d: GameData)
    requires d.shipHealth.Floor as real == d.shipHealth && d.shipMaxHealth.Floor as real == d.shipMaxHealth
    requires forall t :: t in d.unusedModules ==> d.unusedModules[t] < TWO_32
    ensures Reloaded(d) == d
  {
    TruncWhole(d.shipHealth);
    TruncWhole(d.shipMaxHealth);
    forall t | t in d.unusedModules
      ensures ReloadedCounts(d.unusedModules)[t] == d.unusedModules[t]
    {
      CountReadBack(d.unusedModules[t]);
    }
    assert ReloadedCounts(d.unusedModules) == d.unusedModules;
  }

  /** A fractional health does not survive a save and a load: 99.5 comes back as 99. */
  lemma FractionalHealthIsTruncated(d: GameData)
    requires d.shipHealth == 99.5
    ensures Reloaded(d).shipHealth == 99.0 && Reloaded(d) != d
  {
    assert Trunc(99.5) == 99;
  }

  /** A grid entry the codec cannot read back makes the whole load throw. */
  lemma GridEntryUnreadable(d: GameData, name: ModuleType -> string, parse: string -> Option<ModuleType>, i: nat, k: nat)
    requires Injective(name) && ParseInjective(parse)
    requires i < |d.usedModules| && k < |d.usedModules[i]| && parse(name(d.usedModules[i][k])) == None
    ensures FromJsonSpec(ToJsonSpec(d, name), parse) == None
  {
    var rows := UsedJson(d.usedModules, name);
    assert ItemModule(RowJson(d.usedModules[i], name)[k], parse) == None;
    assert RowOf(rows[i], parse) == None;
  }

  /** An inventory entry the codec cannot read back makes the whole load throw. */
  lemma InventoryEntryUnreadable(d: GameData, name: ModuleType -> string, parse: string -> Option<ModuleType>, t: ModuleType)
    requires Injective(name) && ParseInjective(parse)
    requires t in d.unusedModules && parse(name(t)) == None
    ensures FromJsonSpec(ToJsonSpec(d, name), parse) == None
  {
    var m := UnusedFields(d.unusedModules, name);
    assert name(t) in m;
    assert !UnusedReadable(m, parse);
    assert UnusedJson(d.unusedModules, name) == JObj(m);
  }

  /** Under the written codec, a grid or inventory holding FAST_CANNON cannot be loaded back. */
  lemma WrittenCodecLosesFastCannon(d: GameData)
    requires (exists i, k :: 0 <= i < |d.usedModules| && 0 <= k < |d.usedModules[i]| && d.usedModules[i][k] == FAST_CANNON)
             || FAST_CANNON in d.unusedModules
    ensures Injective(ModuleTypeToString) && ParseInjective(ModuleTypeFromString)
    ensures FromJsonSpec(ToJsonSpec(d, ModuleTypeToString), ModuleTypeFromString) == None
  {
    CodecsInjective();
    FastCannonIsNotReadBack();
    if exists i, k :: 0 <= i < |d.usedModules| && 0 <= k < |d.usedModules[i]| && d.usedModules[i][k] == FAST_CANNON {
      var i, k :| 0 <= i < |d.usedModules| && 0 <= k < |d.usedModules[i]| && d.usedModules[i][k] == FAST_CANNON;
      GridEntryUnreadable(d, ModuleTypeToString, ModuleTypeFromString, i, k);
    } else {
      InventoryEntryUnreadable(d, ModuleTypeToString, ModuleTypeFromString, FAST_CANNON);
    }
  }

  /** Under the written codec, data without FAST_CANNON round-trips as under the corrected one. */
  lemma WrittenCodecRoundTrip(d: GameData)
    requires forall i, k :: 0 <= i < |d.usedModules| && 0 <= k < |d.usedModules[i]| ==> d.usedModules[i][k] != FAST_CANNON
    requires FAST_CANNON !in d.unusedModules
    ensures Injective(ModuleTypeToString) && ParseInjective(ModuleTypeFromString)
    ensures FromJsonSpec(ToJsonSpec(d, ModuleTypeToString), ModuleTypeFromString) == Some(Reloaded(d))
  {
    CodecsInjective();
    WrittenCodec();
    JsonRoundTrip(d, ModuleTypeToString, ModuleTypeFromString);
  }

  // ---- the conversion loops ----

  /** toJson with the corrected codec: rows and names pushed back one at a time. */
  method ToJson(d: GameData) returns (j: Json)
    ensures Injective(ModuleName) && j == ToJsonSpec(d, ModuleName)
  {
    CodecsInjective();
    var used: seq<Json> := [];
    var i := 0;
    while i < |d.usedModules|
      invariant 0 <= i <= |d.usedModules|
      invariant |used| == i
      invariant forall r :: 0 <= r < i ==> used[r] == JArr(RowJson(d.usedModules[r], ModuleName))
    {
      var row := d.usedModules[i];
      var rowJson: seq<Json> := [];
      var k := 0;
      while k < |row|
        invariant 0 <= k <= |row|
        invariant |rowJson| == k
        invariant forall x :: 0 <= x < k ==> rowJson[x] == JStr(ModuleName(row[x]))
      {
        rowJson := rowJson + [JStr(ModuleName(row[k]))];
        k := k + 1;
      }
      assert rowJson == RowJson(row, ModuleName);
      used := used + [JArr(rowJson)];
      i := i + 1;
    }
    assert used == UsedJson(d.usedModules, ModuleName);
    var unused := UnusedLoop(d.unusedModules, ModuleName);
    j := JObj(map[
      PLAYER_NAME_KEY := JStr(d.playerName),
      LEVEL_NAME_KEY := JStr(d.levelName),
      HEALTH_KEY := JFloat(d.shipHealth),
      MAX_HEALTH_KEY := JFloat(d.shipMaxHealth),
      EXPANDED_KEY := JBool(d.shipIsExpanded),
      USED_KEY := JArr(used),
      UNUSED_KEY := unused]);
  }

  /** The unused_modules loop of toJson: one key per inventory entry, in any order. */
  method UnusedLoop(u: map<ModuleType, nat>, name: ModuleType -> string) returns (unused: Json)
    requires Injective(name)
    ensures unused == UnusedJson(u, name)
  {
    var fields := FieldsLoop(u, name);
    unused := if |u| == 0 then JNull else JObj(fields);
  }

  /** The loop that builds the inventory object, one entry at a time. */
  method FieldsLoop(u: map<ModuleType, nat>, name: ModuleType -> string) returns (fields: map<string, Json>)
    requires Injective(name)
    ensures fields == UnusedFields(u, name)
  {
    fields := map[];
    var rest := u.Keys;
    ghost var sub: map<ModuleType, nat> := map[];
    while rest != {}
      invariant forall d :: d in u <==> d in rest || d in sub
      invariant forall d :: d in rest ==> d !in sub
      invariant forall d :: d in sub ==> sub[d] == u[d]
      invariant fields == UnusedFields(sub, name)
      decreases rest
    {
      var t :| t in rest;
      UnusedFieldsAdd(sub, name, t, u[t]);
      fields := fields[name(t) := JInt(u[t])];
      sub := sub[t := u[t]];
      rest := rest - {t};
    }
    assert sub == u;
  }
  /** Writing one more inventory entry adds exactly its field to the object. */
  lemma UnusedFieldsAdd(sub: map<ModuleType, nat>, name: ModuleType -> string, t: ModuleType, n: nat)
    requires Injective(name) && t !in sub
    ensures UnusedFields(sub[t := n], name) == UnusedFields(sub, name)[name(t) := JInt(n)]
  {
    var l, r := UnusedFields(sub[t := n], name), UnusedFields(sub, name)[name(t) := JInt(n)];
    forall k | k in l
      ensures k in r && l[k] == r[k]
    {
      UnusedFieldsKeys(sub[t := n], name, k);
    }
    forall k | k in r
      ensures k in l
    {
      if k != name(t) {
        UnusedFieldsKeys(sub, name, k);
      }
    }
    SameMaps(l, r);
  }


  /** The row loop of fromJson: None at the first item that is not a module name. */
  method ReadRow(rowJson: Json) returns (row: Option<seq<ModuleType>>)
    ensures row == RowOf(rowJson, ModuleFromName)
  {
    var items := Items(rowJson);
    if items.None? {
      return None;
    }
    var xs := items.value;
    var acc: seq<ModuleType> := [];
    var k := 0;
    while k < |xs|
      invariant 0 <= k <= |xs|
      invariant |acc| == k
      invariant forall x :: 0 <= x < k ==> ItemModule(xs[x], ModuleFromName) == Some(acc[x])
    {
      var s := GetString(xs[k]);
      if s.None? {
        return None;
      }
      var t := ModuleFromName(s.value);
      if t.None? {
        return None;
      }
      acc := acc + [t.value];
      k := k + 1;
    }
    var r := ParseRow(xs, ModuleFromName);
    assert r.Some? && r.value == acc;
    return Some(acc);
  }

  /** The unused_modules loop of fromJson, visiting the keys in any order. */
  method ReadUnused(j: Json, parse: string -> Option<ModuleType>) returns (r: Option<map<ModuleType, nat>>)
    requires ParseInjective(parse)
    ensures r == ParseUnused(j, parse)
  {
    match j {
      case JNull => return Some(map[]);
      case JArr(xs) => return if xs == [] then Some(map[]) else None;
      case JObj(m) => r := ReadFields(m, parse);
      case _ => return None;
    }
  }

  /** The key loop over an unused_modules object: None at the first key that is no module name or whose count is no number. */
  method ReadFields<T(==)>(m: map<string, Json>, parse: string -> Option<T>) returns (r: Option<map<T, nat>>)
    requires ParseInjective(parse)
    ensures UnusedReadable(m, parse) ==> r == Some(UnusedOf(m, parse))
    ensures !UnusedReadable(m, parse) ==> r == None
  {
    var acc: map<T, nat> := map[];
    var rest := m.Keys;
    ghost var sub: map<string, Json> := map[];
    ScanStart(m, parse);
    while rest != {}
      invariant Scanned(m, parse, rest, sub, acc)
      decreases rest
    {
      var k :| k in rest;
      var t := parse(k);
      var count := GetInt(m[k]);
      if t.None? || count.None? {
        return None;
      }
      ScanStep(m, parse, rest, sub, acc, k);
      acc := acc[t.value := AsUint32(count.value)];
      sub := sub[k := m[k]];
      rest := rest - {k};
    }
    ScanDone(m, parse, sub, acc);
    return Some(acc);
  }

  /**
   * The state of the key loop: every key is still to visit or read, and
   * what was read so far is the inventory of the keys read.
   */
  ghost predicate Scanned<T>(m: map<string, Json>, parse: string -> Option<T>,
                        rest: set<string>, sub: map<string, Json>, acc: map<T, nat>)
  {
    ParseInjective(parse) && KeysSplit(m, rest, sub) &&
    UnusedReadable(sub, parse) && acc == UnusedOf(sub, parse)
  }

  /** The keys of m are split between the ones to visit and the ones read, which carry m's values. */
  ghost predicate KeysSplit(m: map<string, Json>, rest: set<string>, sub: map<string, Json>)
  {
    (forall k :: k in m <==> k in rest || k in sub) &&
    (forall k :: k in rest ==> k !in sub) &&
    (forall k :: k in sub ==> sub[k] == m[k])
  }

  lemma KeysSplitStep(m: map<string, Json>, rest: set<string>, sub: map<string, Json>, k: string)
    requires KeysSplit(m, rest, sub) && k in rest
    ensures KeysSplit(m, rest - {k}, sub[k := m[k]])
  {
  }

  /** Before the loop every key is still to visit and nothing is read. */
  lemma ScanStart<T>(m: map<string, Json>, parse: string -> Option<T>)
    requires ParseInjective(parse)
    ensures Scanned(m, parse, m.Keys, map[], map[])
  {
    var e: map<string, Json> := map[];
    assert UnusedOf(e, parse) == map[];
  }

  /** Reading one readable key moves it from the keys to visit to the keys read. */
  lemma ScanStep<T>(m: map<string, Json>, parse: string -> Option<T>,
                 rest: set<string>, sub: map<string, Json>, acc: map<T, nat>, k: string)
    requires Scanned(m, parse, rest, sub, acc) && k in rest
    requires parse(k).Some? && GetInt(m[k]).Some?
    ensures Scanned(m, parse, rest - {k}, sub[k := m[k]], acc[parse(k).value := AsUint32(GetInt(m[k]).value)])
  {
    KeysSplitStep(m, rest, sub, k);
    UnusedOfAdd(sub, parse, k, m[k]);
  }

  /** With no key left to visit, every key was readable and the inventory is the object's. */
  lemma ScanDone<T>(m: map<string, Json>, parse: string -> Option<T>, sub: map<string, Json>, acc: map<T, nat>)
    requires Scanned(m, parse, {}, sub, acc)
    ensures UnusedReadable(m, parse) && acc == UnusedOf(m, parse)
  {
    assert sub == m;
  }

  /** Reading one more readable key adds exactly its type and count to the inventory. */
  lemma UnusedOfAdd<T>(sub: map<string, Json>, parse: string -> Option<T>, k: string, v: Json)
    requires ParseInjective(parse) && UnusedReadable(sub, parse) && k !in sub
    requires parse(k).Some? && GetInt(v).Some?
    ensures UnusedReadable(sub[k := v], parse)
    ensures UnusedOf(sub[k := v], parse) == UnusedOf(sub, parse)[parse(k).value := AsUint32(GetInt(v).value)]
  {
    var m := sub[k := v];
    var l, r := UnusedOf(m, parse), UnusedOf(sub, parse)[parse(k).value := AsUint32(GetInt(v).value)];
    forall t | t in l
      ensures t in r && l[t] == r[t]
    {
      UnusedOfKeys(m, parse, t);
      var k' :| k' in m && parse(k') == Some(t);
      if k' != k {
        assert k' in sub && m[k'] == sub[k'];
      }
    }
    forall t | t in r
      ensures t in l
    {
      if t != parse(k).value {
        UnusedOfKeys(sub, parse, t);
        var k' :| k' in sub && parse(k') == Some(t);
        assert k' in m;
      }
    }
    SameMaps(l, r);
  }

  /** The outer loop over the used_modules rows: None at the first row that does not read back. */
  method ReadRows(rows: seq<Json>) returns (used: Option<seq<seq<ModuleType>>>)
    ensures used == ParseRows(rows, ModuleFromName)
  {
    var acc: seq<seq<ModuleType>> := [];
    var i := 0;
    while i < |rows|
      invariant 0 <= i <= |rows|
      invariant |acc| == i
      invariant forall x :: 0 <= x < i ==> RowOf(rows[x], ModuleFromName) == Some(acc[x])
    {
      var row := ReadRow(rows[i]);
      if row.None? {
        return None;
      }
      acc := acc + [row.value];
      i := i + 1;
    }
    var pr := ParseRows(rows, ModuleFromName);
    assert pr.Some? && pr.value == acc;
    used := Some(acc);
  }

  /** fromJson with the corrected codec: None wherever the C++ code throws. */
  method FromJson(j: Json) returns (r: Option<GameData>)
    ensures ParseInjective(ModuleFromName) && r == FromJsonSpec(j, ModuleFromName)
  {
    assert ParseInjective(ModuleFromName) by {
      CodecsInjective();
    }
    if !j.JObj? || !HasKeys(j.fields) {
      return None;
    }
    var f := j.fields;
    var sc := ScalarsOf(f);
    if sc.None? {
      return None;
    }
    var rowsJson := Items(f[USED_KEY]);
    if rowsJson.None? {
      return None;
    }
    var used := ReadRows(rowsJson.value);
    if used.None? {
      return None;
    }
    var unused := ReadUnused(f[UNUSED_KEY], ModuleFromName);
    if unused.None? {
      return None;
    }
    var s := sc.value;
    r := Some(GameData(s.0, s.1, s.2 as real, s.3 as real, s.4 != 0, used.value, unused.value));
  }

  /** createGameData: the names and the ship's health, expansion, grid and inventory. */
  function CreateGameData(playerName: string, levelName: string, ship: Ship): (d: GameData)
    ensures d.playerName == playerName && d.levelName == levelName
  {
    GameData(playerName, levelName, ship.health, ship.maxHealth, ship.isExpanded, ship.modules, ship.available)
  }

  /** A game level's start with loaded data: health, max health, grid and inventory are restored, the expansion is not. */
  function RestoreShip(initial: Ship, d: GameData): (s: Ship)
    ensures s.isExpanded == initial.isExpanded
  {
    initial.(health := d.shipHealth, maxHealth := d.shipMaxHealth, modules := d.usedModules, available := d.unusedModules)
  }

  /** Restoring from a ship's saved data gives that ship back, except its expansion, which stays the initial ship's. */
  lemma CreateThenRestore(playerName: string, levelName: string, ship: Ship, initial: Ship)
    ensures RestoreShip(initial, CreateGameData(playerName, levelName, ship)) == ship.(isExpanded := initial.isExpanded)
    ensures ship.isExpanded != initial.isExpanded ==> RestoreShip(initial, CreateGameData(playerName, levelName, ship)) != ship
  {
  }

  /** saveGame and loadGame write to and read from data_path() + "/" + fileName. */
  function SavePath(root: string, fileName: string): string
  {
    DataPath(root) + "/" + fileName
  }

  datatype LoadOutcome = OpenFailed | Loaded(data: GameData) | Thrown

  /** The singleton's saved state, with the file store it writes to. */
  class SaveLoadSystem {
    const root: string
    var loadedGameData: Option<GameData>
    var hasLoadedData: bool
    var files: map<string, Json>

    constructor (root: string, files: map<string, Json>)
      ensures this.root == root && this.files == files
      ensures loadedGameData == None && !hasLoadedData
    {
      this.root := root;
      this.files := files;
      loadedGameData := None;
      hasLoadedData := false;
    }

    /**
     * saveGame: when the file opens, the JSON is written and the data
     * becomes the loaded data; when it does not, nothing changes.
     */
    method SaveGame(data: GameData, fileName: string, opens: bool)
      modifies this
      ensures Injective(ModuleName)
      ensures opens ==> files == old(files)[SavePath(root, fileName) := ToJsonSpec(data, ModuleName)] &&
                        loadedGameData == Some(data) && hasLoadedData
      ensures !opens ==> files == old(files) && loadedGameData == old(loadedGameData) && hasLoadedData == old(hasLoadedData)
    {
      var j := ToJson(data);
      if !opens {
        return;
      }
      files := files[SavePath(root, fileName) := j];
      loadedGameData := Some(data);
      hasLoadedData := true;
    }

    /** loadGame: false when the file does not open, else the data read back (or the exception). */
    method LoadGame(fileName: string) returns (r: LoadOutcome)
      ensures SavePath(root, fileName) !in files ==> r == OpenFailed
      ensures SavePath(root, fileName) in files ==>
                ParseInjective(ModuleFromName) &&
                r == match FromJsonSpec(files[SavePath(root, fileName)], ModuleFromName)
                     case Some(d) => Loaded(d)
                     case None => Thrown
    {
      var path := SavePath(root, fileName);
      if path !in files {
        return OpenFailed;
      }
      var d := FromJson(files[path]);
      r := if d.Some? then Loaded(d.value) else Thrown;
    }
  }

  /** A successful save followed by a load of the same file gives Reloaded(data). */
  method SaveThenLoad(s: SaveLoadSystem, data: GameData, fileName: string) returns (r: LoadOutcome)
    modifies s
    ensures r == Loaded(Reloaded(data))
  {
    s.SaveGame(data, fileName, true);
    r := s.LoadGame(fileName);
    SaveLoadRoundTrip(data);
  }
}
