/**
 * The property-list helpers of src/plist.rs: loading a root dictionary and
 * decoding the font name held in an NSKeyedArchiver blob. Reading and
 * parsing a property list are oracles: `readPlist` stands for
 * `plist::Value::from_file`, and `decode` for `plist::Value::from_reader`
 * followed by `.ok()`.
 */
module Plist {
  import opened Wrappers
  import opened Types

  newtype byte = x: int | 0 <= x < 256

  /** The parsed property-list values; booleans, numbers and dates are lumped together
      because the crate never inspects them. */
  datatype PlistValue =
    | PString(text: string)
    | PData(bytes: seq<byte>)
    | PArray(items: seq<PlistValue>)
    | PDict(entries: map<string, PlistValue>)
    | PUid(index: nat)
    | PScalar

  type Dictionary = map<string, PlistValue>

  /** `dict.get(key).and_then(Value::as_string)`. */
  function StringAt(d: Dictionary, key: string): (r: Option<string>)
    ensures r.Some? <==> key in d && d[key].PString?
    ensures r.Some? ==> d[key] == PString(r.value)
  {
    if key in d && d[key].PString? then Some(d[key].text) else None
  }

  /** `dict.get(key).and_then(Value::as_dictionary)`. */
  function DictAt(d: Dictionary, key: string): (r: Option<Dictionary>)
    ensures r.Some? <==> key in d && d[key].PDict?
    ensures r.Some? ==> d[key] == PDict(r.value)
  {
    if key in d && d[key].PDict? then Some(d[key].entries) else None
  }

  /** `dict.get(key).and_then(Value::as_array)`. */
  function ArrayAt(d: Dictionary, key: string): (r: Option<seq<PlistValue>>)
    ensures r.Some? <==> key in d && d[key].PArray?
    ensures r.Some? ==> d[key] == PArray(r.value)
  {
    if key in d && d[key].PArray? then Some(d[key].items) else None
  }

  const ROOT_NOT_DICTIONARY := "terminal plist root is not a dictionary"
  const READ_FAILED_PREFIX := "failed to read plist: "

  /** `load_root_dictionary`: a read failure is reported with its message; a root that is not
      a dictionary is refused. */
  function LoadRootDictionary(path: Path, readPlist: Path -> Result<PlistValue, string>)
    : (r: Result<Dictionary, string>)
    ensures r.Success? <==> readPlist(path).Success? && readPlist(path).value.PDict?
    ensures r.Success? ==> readPlist(path) == Success(PDict(r.value))
    ensures readPlist(path).Failure? ==> r == Failure(READ_FAILED_PREFIX + readPlist(path).error)
    ensures readPlist(path).Success? && !readPlist(path).value.PDict? ==> r == Failure(ROOT_NOT_DICTIONARY)
  {
    match readPlist(path)
    case Failure(err) => Failure(READ_FAILED_PREFIX + err)
    case Success(v) => if v.PDict? then Success(v.entries) else Failure(ROOT_NOT_DICTIONARY)
  }

  /** `uid_index`: only a Uid is an index. */
  function UidIndex(v: PlistValue): (r: Option<nat>)
    ensures r.Some? <==> v.PUid?
    ensures r.Some? ==> v == PUid(r.value)
  {
    if v.PUid? then Some(v.index) else None
  }

  /** `objects.get(i).and_then(as_dictionary)`: an out-of-range index is just absent. */
  function ObjectDict(objects: seq<PlistValue>, i: nat): Option<Dictionary> {
    if i < |objects| && objects[i].PDict? then Some(objects[i].entries) else None
  }

  /** `objects.get(i).and_then(as_string)`. */
  function ObjectString(objects: seq<PlistValue>, i: nat): Option<string> {
    if i < |objects| && objects[i].PString? then Some(objects[i].text) else None
  }

  /** `key in d` holding a Uid, as `d.get(key).and_then(uid_index)`. */
  function UidAt(d: Dictionary, key: string): Option<nat> {
    if key in d then UidIndex(d[key]) else None
  }

  /** The archive structure the decoder walks: `$objects`, and `$top.root` as a Uid. */
  predicate IsKeyedArchive(archive: PlistValue) {
    && archive.PDict?
    && ArrayAt(archive.entries, "$objects").Some?
    && DictAt(archive.entries, "$top").Some?
    && UidAt(DictAt(archive.entries, "$top").value, "root").Some?
  }

  /** In `archive`, `$top.root` indexes a dictionary in `$objects` whose NSName indexes the
      string `name` in `$objects`. */
  predicate NamesFont(archive: PlistValue, name: string) {
    && IsKeyedArchive(archive)
    && var objects := ArrayAt(archive.entries, "$objects").value;
       var root := UidAt(DictAt(archive.entries, "$top").value, "root").value;
       && root < |objects| && objects[root].PDict?
       && UidAt(objects[root].entries, "NSName").Some?
       && UidAt(objects[root].entries, "NSName").value < |objects|
       && objects[UidAt(objects[root].entries, "NSName").value] == PString(name)
  }

  /** `font_name_from_keyed_archive`: `objects[objects[root].NSName]`, resolved through two
      Uid indices, or `None` at the first step that does not fit. */
  function FontNameFromKeyedArchive(v: PlistValue, decode: seq<byte> -> Option<PlistValue>)
    : (r: Option<string>)
    ensures !v.PData? ==> r.None?
    ensures r.Some? ==> decode(v.bytes).Some? && IsKeyedArchive(decode(v.bytes).value)
    ensures r.Some? ==> PString(r.value) in ArrayAt(decode(v.bytes).value.entries, "$objects").value
    ensures r.Some? ==> NamesFont(decode(v.bytes).value, r.value)
    ensures forall name :: v.PData? && decode(v.bytes).Some? && NamesFont(decode(v.bytes).value, name)
                           ==> r == Some(name)
  {
    if !v.PData? then None
    else match decode(v.bytes)
      case None => None
      case Some(archive) =>
        if !archive.PDict? then None
        else
          var a := archive.entries;
          match ArrayAt(a, "$objects")
          case None => None
          case Some(objects) =>
            match DictAt(a, "$top")
            case None => None
            case Some(top) =>
              match UidAt(top, "root")
              case None => None
              case Some(root) =>
                match ObjectDict(objects, root)
                case None => None
                case Some(rootObject) =>
                  match UidAt(rootObject, "NSName")
                  case None => None
                  case Some(nameIndex) => ObjectString(objects, nameIndex)
  }

  // ---------------------------------------------------------------------

  /** The smallest archive that names a font: `$null`, the root object pointing at the name
      through NSName, and the name itself. */
  function MinimalFontArchive(name: string): PlistValue {
    PDict(map[
      "$objects" := PArray([PString("$null"), PDict(map["NSName" := PUid(2)]), PString(name)]),
      "$top" := PDict(map["root" := PUid(1)])])
  }

  /** Decoding recovers the name from any blob that parses to the minimal archive. */
  lemma MinimalArchiveRoundTrip(name: string, bytes: seq<byte>, decode: seq<byte> -> Option<PlistValue>)
    requires decode(bytes) == Some(MinimalFontArchive(name))
    ensures FontNameFromKeyedArchive(PData(bytes), decode) == Some(name)
  {
    var a := MinimalFontArchive(name).entries;
    assert ArrayAt(a, "$objects").Some?;
    assert DictAt(a, "$top") == Some(map["root" := PUid(1)]);
  }

  /** The general rule: when `$top.root` names a dictionary whose NSName is a Uid pointing at
      a string, that string is the font name. */
  lemma TwoStepResolution(bytes: seq<byte>, decode: seq<byte> -> Option<PlistValue>,
                          objects: seq<PlistValue>, root: nat, nameIndex: nat)
    requires decode(bytes).Some? && decode(bytes).value.PDict?
    requires ArrayAt(decode(bytes).value.entries, "$objects") == Some(objects)
    requires DictAt(decode(bytes).value.entries, "$top").Some?
    requires UidAt(DictAt(decode(bytes).value.entries, "$top").value, "root") == Some(root)
    requires root < |objects| && objects[root].PDict?
    requires UidAt(objects[root].entries, "NSName") == Some(nameIndex)
    requires nameIndex < |objects| && objects[nameIndex].PString?
    ensures FontNameFromKeyedArchive(PData(bytes), decode) == Some(objects[nameIndex].text)
  {
  }

  /** An NSName index past the end of `$objects` yields no name, not a failure. */
  lemma OutOfRangeNameIsNone(bytes: seq<byte>, decode: seq<byte> -> Option<PlistValue>,
                             objects: seq<PlistValue>, root: nat, nameIndex: nat)
    requires decode(bytes).Some? && IsKeyedArchive(decode(bytes).value)
    requires ArrayAt(decode(bytes).value.entries, "$objects") == Some(objects)
    requires UidAt(DictAt(decode(bytes).value.entries, "$top").value, "root") == Some(root)
    requires root < |objects| && objects[root].PDict?
    requires UidAt(objects[root].entries, "NSName") == Some(nameIndex) && nameIndex >= |objects|
    ensures FontNameFromKeyedArchive(PData(bytes), decode).None?
  {
  }

  /** A `$top.root` that does not index a dictionary yields no name, whatever strings
      `$objects` holds. */
  lemma NonDictionaryRootIsNone(bytes: seq<byte>, decode: seq<byte> -> Option<PlistValue>,
                                objects: seq<PlistValue>, root: nat)
    requires decode(bytes).Some? && IsKeyedArchive(decode(bytes).value)
    requires ArrayAt(decode(bytes).value.entries, "$objects") == Some(objects)
    requires UidAt(DictAt(decode(bytes).value.entries, "$top").value, "root") == Some(root)
    requires root >= |objects| || !objects[root].PDict?
    ensures FontNameFromKeyedArchive(PData(bytes), decode).None?
  {
  }
}
