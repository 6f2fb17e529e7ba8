/** The image field plugin (plugins/image/config.js): how an image field's
    value is stored (deflate), read back into a file descriptor (inflate)
    and summarised for listings (preview).

    The item's data is a map from field name to value; a name that is not
    in the map reads as undefined. The files model is a map from file id to
    the file record. Callbacks become results: deflate and preview always
    answer, inflate either delivers a value or never calls back. */
module ImagePlugin {
  import opened Wrappers
  import opened JsValue
  import opened JsonWrite
  import opened JsonRead
  import opened JsonRoundTrip

  /** The plugin declaration: its type name, and no validator, so no
      assertion is ever checked against an image field's value */
  datatype Plugin = Plugin(name: string, validator: Option<string>)

  const Image: Plugin := Plugin("image", None)

  /** The assertion check the validation of an item makes for a field: a
      present value that fails the plugin's named assertion is reported as
      "Failed assertion: " followed by the name. `holds` stands for the
      assertion library, which is not part of this model. */
  function AssertionError(p: Plugin, value: Value, holds: (string, Value) -> bool): (r: Option<string>)
    ensures p.validator.None? ==> r == None
    ensures r.Some? ==> p.validator.Some? && r.value == "Failed assertion: " + p.validator.value
    ensures r.Some? <==> p.validator.Some? && Present(value) && !holds(p.validator.value, value)
  {
    match p.validator
    case None => None
    case Some(name) => if Present(value) && !holds(name, value) then Some("Failed assertion: " + name) else None
  }

  /** A value counts as present unless it is undefined, null or "" */
  predicate Present(value: Value) {
    !(value.Undefined? || value.Null? || value == Str(""))
  }

  /** The fixed markup a well-formed stored value previews as */
  const IconMarkup: string := "<h4><i class=\"muted large icon-picture\"></i></h4>"

  /** File records by id */
  type FileStore = map<int, seq<Prop>>

  /** What inflate hands to its callback; Stalled when the callback is never
      called: the store lookup failed, or it found no record and reading the
      path of that missing record threw */
  datatype Outcome = Delivered(value: Value) | Stalled

  /** The keys the descriptor drops from the file record, in the order the
      source deletes them */
  const RemovedKeyList: seq<string> := ["id", "path", "item_id", "meta_json", "description"]

  const RemovedKeys: set<string> := {"id", "path", "item_id", "meta_json", "description"}

  /** Every key the reshaping writes or deletes */
  const TouchedKeys: set<string> := RemovedKeys + {"url", "file_id"}

  /** The value an item's data holds under the field's name; undefined when
      the data has no such entry */
  function FieldValue(data: map<string, Value>, name: string): (v: Value)
    ensures name !in data ==> v == Undefined
  {
    if name in data then data[name] else Undefined
  }

  /** preview: the icon markup when the stored value parses as JSON, and ""
      when JSON.parse throws */
  function Preview(value: Value): (r: string)
    ensures r == "" <==> Parse(ToText(value)).None?
    ensures r != "" ==> r == IconMarkup
  {
    match Parse(ToText(value))
    case None => ""
    case Some(_) => IconMarkup
  }

  /** deflate: a falsy value is stored as ""; an array or object as its JSON
      text; any other value as it is */
  function Deflate(data: map<string, Value>, name: string): (r: Value)
    ensures IsFalsy(FieldValue(data, name)) ==> r == Str("")
    ensures !IsFalsy(FieldValue(data, name)) && IsObjectType(FieldValue(data, name)) ==>
              r == Str(Write(FieldValue(data, name)))
              && Parse(r.s) == Some(Canon(FieldValue(data, name)))
    ensures !IsFalsy(FieldValue(data, name)) && !IsObjectType(FieldValue(data, name)) ==>
              r == FieldValue(data, name)
    ensures !IsFalsy(FieldValue(data, name)) ==> !IsFalsy(r)
  {
    var v := FieldValue(data, name);
    if IsFalsy(v) then Str("")
    else
      var json := if IsObjectType(v) then Stringify(v) else None;
      ParseWrite(v);
      if json.Some? && !IsFalsy(Str(json.value)) then Str(json.value) else v
  }

  /** Finding the file record by id: an integer id selects the record stored
      under it, and any other id finds nothing */
  function Lookup(files: FileStore, fileId: Value): (r: Option<seq<Prop>>)
    ensures r.Some? <==> fileId.Num? && fileId.n in files
    ensures r.Some? ==> r.value == files[fileId.n]
  {
    if fileId.Num? && fileId.n in files then Some(files[fileId.n]) else None
  }

  /** The copy the plugin makes of a record by writing it as JSON text and
      parsing that text back: the reshaping works on the copy, never on the
      record itself */
  function CopyRecord(file: seq<Prop>): (r: Option<seq<Prop>>)
    ensures r.Some?
    ensures DistinctKeys(file) && AllPropsJson(file) ==> r == Some(file)
  {
    ParseWrite(Obj(file));
    CanonFixesJson(Obj(file));
    match Stringify(Obj(file))
    case None => None
    case Some(text) =>
      match Parse(text)
      case Some(Obj(ps)) => Some(ps)
      case _ => None
  }

  /** The first reshaping step: the url is rebuilt from the files route and
      the record's path, and the record's id is exposed as its file id */
  function AddUrlAndFileId(file: seq<Prop>): (w: seq<Prop>)
    ensures Get(w, "url") == Str("/files/" + ToText(Get(file, "path")))
    ensures "file_id" in KeySet(w) && Get(w, "file_id") == Get(file, "id")
    ensures KeySet(w) == KeySet(file) + {"url", "file_id"}
    ensures forall k | k != "url" && k != "file_id" :: Get(w, k) == Get(file, k)
    ensures Without(w, TouchedKeys) == Without(file, TouchedKeys)
    ensures DistinctKeys(file) ==> DistinctKeys(w)
    ensures AllPropsJson(file) && IsJson(Get(file, "id")) ==> AllPropsJson(w)
  {
    var url := Str("/files/" + ToText(Get(file, "path")));
    var withUrl := SetProp(file, "url", url);
    WithoutSetProp(file, "url", url, TouchedKeys);
    WithoutSetProp(withUrl, "file_id", Get(withUrl, "id"), TouchedKeys);
    SetProp(withUrl, "file_id", Get(withUrl, "id"))
  }

  /** Removing each key of ks from the properties in turn */
  function DeleteKeys(ps: seq<Prop>, ks: seq<string>): (r: seq<Prop>)
    ensures forall k :: k in KeySet(r) <==> k in KeySet(ps) && k !in ks
    ensures forall k | k !in ks :: Get(r, k) == Get(ps, k)
    ensures (forall i | 0 <= i < |ks| :: ks[i] in TouchedKeys) ==>
              Without(r, TouchedKeys) == Without(ps, TouchedKeys)
    ensures DistinctKeys(ps) ==> DistinctKeys(r)
    ensures AllPropsJson(ps) ==> AllPropsJson(r)
    decreases |ks|
  {
    if ks == [] then ps
    else
      var r := DeleteKeys(Delete(ps, ks[0]), ks[1..]);
      assert forall k | k in ks[1..] :: k in ks;
      if ks[0] in TouchedKeys then WithoutDelete(ps, ks[0], TouchedKeys); r else r
  }

  /** The descriptor built from a copied file record: url from the path, the
      id renamed to file_id, the storage-side keys deleted */
  function Describe(file: seq<Prop>): (d: seq<Prop>)
    ensures "url" in KeySet(d) && Get(d, "url") == Str("/files/" + ToText(Get(file, "path")))
    ensures "file_id" in KeySet(d) && Get(d, "file_id") == Get(file, "id")
    ensures forall k | k in RemovedKeys :: k !in KeySet(d)
  {
    AddedKeysNotRemoved();
    DeleteKeys(AddUrlAndFileId(file), RemovedKeyList)
  }

  /** Nothing else changes: every other attribute of the record is in the
      descriptor with the same value */
  lemma DescribeKeepsOtherAttributes(file: seq<Prop>)
    ensures var d := Describe(file);
            && (forall k | k !in TouchedKeys :: (k in KeySet(d) <==> k in KeySet(file)))
            && (forall k | k !in TouchedKeys :: Get(d, k) == Get(file, k))
  {
    var w := AddUrlAndFileId(file);
    AddedKeysNotRemoved();
    assert DeleteKeys(w, RemovedKeyList) == Describe(file);
  }

  /** ... and in the same order: with the touched keys set aside, the
      descriptor and the record list the same properties */
  lemma DescribeKeepsOrder(file: seq<Prop>)
    ensures Without(Describe(file), TouchedKeys) == Without(file, TouchedKeys)
  {
    var w := AddUrlAndFileId(file);
    AddedKeysNotRemoved();
    assert Without(DeleteKeys(w, RemovedKeyList), TouchedKeys) == Without(w, TouchedKeys);
    assert DeleteKeys(w, RemovedKeyList) == Describe(file);
  }

  /** A well-formed record whose id is defined gives a well-formed
      descriptor: distinct keys, and a JSON value under every key */
  lemma DescribeKeepsJson(file: seq<Prop>)
    requires DistinctKeys(file) && AllPropsJson(file) && IsJson(Get(file, "id"))
    ensures DistinctKeys(Describe(file)) && AllPropsJson(Describe(file))
  {
    assert DeleteKeys(AddUrlAndFileId(file), RemovedKeyList) == Describe(file);
  }

  lemma AddedKeysNotRemoved()
    ensures "url" !in RemovedKeyList && "file_id" !in RemovedKeyList
    ensures forall k :: k in RemovedKeyList <==> k in RemovedKeys
    ensures forall i | 0 <= i < |RemovedKeyList| :: RemovedKeyList[i] in TouchedKeys
    ensures forall k | k !in TouchedKeys :: k !in RemovedKeyList && k != "url" && k != "file_id"
  {
  }

  /** The file id a stored value names: the `file_id` of what it parses to,
      when the value is truthy, parses, and parses to something truthy.
      None exactly when inflate answers without a lookup. */
  function StoredFileId(stored: Value): Option<Value>
  {
    if IsFalsy(stored) then None
    else
      match Parse(ToText(stored))
      case None => None
      case Some(parsed) => if IsFalsy(parsed) then None else Some(GetProperty(parsed, "file_id"))
  }

  /** inflate: read the stored value of the field back into what the
      application sees */
  function Inflate(data: map<string, Value>, name: string, files: FileStore): (r: Outcome)
    ensures IsFalsy(FieldValue(data, name)) ==> r == Delivered(Null)
    ensures r == Delivered(Arr([])) <==>
              !IsFalsy(FieldValue(data, name)) && Parse(ToText(FieldValue(data, name))).None?
    ensures StoredFileId(FieldValue(data, name)).None? ==> r.Delivered? && !r.value.Obj?
    ensures r.Stalled? <==>
              StoredFileId(FieldValue(data, name)).Some?
              && Lookup(files, StoredFileId(FieldValue(data, name)).value).None?
    ensures r.Delivered? && r.value.Obj? ==>
              StoredFileId(FieldValue(data, name)).Some?
              && Lookup(files, StoredFileId(FieldValue(data, name)).value).Some?
  {
    var stored := FieldValue(data, name);
    if IsFalsy(stored) then Delivered(Null)
    else
      match Parse(ToText(stored))
      case None => Delivered(Arr([]))
      case Some(parsed) =>
        if IsFalsy(parsed) then Delivered(Null)
        else
          match Lookup(files, GetProperty(parsed, "file_id"))
          case None => Stalled
          case Some(file) =>
            match CopyRecord(file)
            case None => Stalled
            case Some(copy) => Delivered(Obj(Describe(copy)))
  }
}
