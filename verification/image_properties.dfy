/** Properties of the image plugin that relate its operations to each other:
    what inflate gives back after deflate, when it reads the file store,
    and how preview agrees with it. */
module ImageProperties {
  import opened Wrappers
  import opened JsValue
  import opened JsonRead
  import opened JsonRoundTrip
  import opened ImagePlugin

  /** A file record as a well-formed object stored under its own id */
  predicate RecordAt(files: FileStore, n: int) {
    && n in files
    && DistinctKeys(files[n])
    && AllPropsJson(files[n])
    && Get(files[n], "id") == Num(n)
  }

  /** The image plugin declares no validator: no value of an image field
      ever fails an assertion, whatever the assertions say */
  lemma ImageNeverFailsAssertion(value: Value, holds: (string, Value) -> bool)
    ensures AssertionError(Image, value, holds) == None
  {
  }

  /** A falsy stored value, or text that parses to a falsy value, inflates
      to null whatever the file store holds: no lookup is made */
  lemma InflateNullWithoutLookup(data: map<string, Value>, name: string, files: FileStore, other: FileStore)
    requires IsFalsy(FieldValue(data, name))
             || (Parse(ToText(FieldValue(data, name))).Some?
                 && IsFalsy(Parse(ToText(FieldValue(data, name))).value))
    ensures Inflate(data, name, files) == Delivered(Null)
    ensures Inflate(data, name, other) == Inflate(data, name, files)
  {
  }

  /** When the stored value names a record by id, inflate delivers that
      record's descriptor */
  lemma InflateFindsRecord(data: map<string, Value>, name: string, files: FileStore, n: int)
    requires StoredFileId(FieldValue(data, name)) == Some(Num(n))
    requires n in files && DistinctKeys(files[n]) && AllPropsJson(files[n])
    ensures Inflate(data, name, files) == Delivered(Obj(Describe(files[n])))
  {
    assert CopyRecord(files[n]) == Some(files[n]);
  }

  /** Storing {file_id: n} and reading it back against a store that holds
      record n gives a descriptor with file_id n carrying the record's other
      attributes, original_filename and size among them */
  lemma DeflateInflateRoundTrip(data: map<string, Value>, name: string, files: FileStore, n: int)
    requires name in data && data[name].Obj? && DistinctKeys(data[name].props)
    requires Get(data[name].props, "file_id") == Num(n)
    requires RecordAt(files, n)
    ensures var stored := Deflate(data, name);
            var r := Inflate(data[name := stored], name, files);
            && r == Delivered(Obj(Describe(files[n])))
            && Get(r.value.props, "file_id") == Num(n)
            && Get(r.value.props, "original_filename") == Get(files[n], "original_filename")
            && Get(r.value.props, "size") == Get(files[n], "size")
  {
    var stored := Deflate(data, name);
    var data' := data[name := stored];
    DeflatedObjectNamesFile(data, name);
    CanonKeepsProperty(data[name].props, "file_id");
    assert FieldValue(data', name) == stored;
    InflateFindsRecord(data', name, files, n);
    assert Get(Describe(files[n]), "file_id") == Num(n);
    KeepsOriginalFilename(files[n]);
    KeepsSize(files[n]);
  }

  /** Deflating an object stores text naming the file_id of the object's
      canonical form */
  lemma DeflatedObjectNamesFile(data: map<string, Value>, name: string)
    requires name in data && data[name].Obj?
    ensures StoredFileId(Deflate(data, name)) == Some(GetProperty(Canon(data[name]), "file_id"))
  {
    var stored := Deflate(data, name);
    assert stored.Str? && Parse(stored.s) == Some(Canon(data[name]));
  }

  /** The attributes the integration test reads back are carried over */
  lemma KeepsOriginalFilename(file: seq<Prop>)
    ensures Get(Describe(file), "original_filename") == Get(file, "original_filename")
  {
    KeptAttribute(file, "original_filename");
  }

  lemma KeepsSize(file: seq<Prop>)
    ensures Get(Describe(file), "size") == Get(file, "size")
  {
    KeptAttribute(file, "size");
  }

  lemma KeptAttribute(file: seq<Prop>, k: string)
    requires k !in TouchedKeys
    ensures Get(Describe(file), k) == Get(file, k)
  {
    DescribeKeepsOtherAttributes(file);
  }

  /** The descriptor is a fixed point of deflate-then-inflate: storing it and
      reading it back gives the same descriptor, because the file_id it
      carries names the same record */
  lemma DescriptorIsStable(data: map<string, Value>, name: string, files: FileStore, n: int)
    requires RecordAt(files, n)
    ensures var held := data[name := Obj(Describe(files[n]))];
            Inflate(held[name := Deflate(held, name)], name, files) == Delivered(held[name])
  {
    var d := Describe(files[n]);
    var held := data[name := Obj(d)];
    DescribeKeepsJson(files[n]);
    assert IsJson(held[name]);
    CanonOfJson(held[name]);
    DeflatedObjectNamesFile(held, name);
    var data' := held[name := Deflate(held, name)];
    assert FieldValue(data', name) == Deflate(held, name);
    InflateFindsRecord(data', name, files, n);
  }

  /** A stored value previews as "" exactly when inflate degrades it to the
      empty list */
  lemma PreviewAgreesWithInflate(data: map<string, Value>, name: string, files: FileStore)
    requires !IsFalsy(FieldValue(data, name))
    ensures Preview(FieldValue(data, name)) == "" <==> Inflate(data, name, files) == Delivered(Arr([]))
  {
  }

  /** Whatever deflate stores for an array or object previews as the icon */
  lemma PreviewOfDeflated(data: map<string, Value>, name: string)
    requires !IsFalsy(FieldValue(data, name)) && IsObjectType(FieldValue(data, name))
    ensures Preview(Deflate(data, name)) == IconMarkup
  {
    assert ToText(Deflate(data, name)) == Deflate(data, name).s;
  }

  /** JSON.parse coerces its argument: null reads as the text "null", which
      parses, and undefined as "undefined", which does not */
  lemma PreviewOfNullAndUndefined()
    ensures Preview(Null) == IconMarkup
    ensures Preview(Undefined) == ""
  {
    assert ToText(Null) == "null";
    assert ParseValue("null") == Some((Null, []));
    assert ToText(Undefined) == "undefined";
    assert ParseValue("undefined") == None;
  }

  /** An object that was never deflated coerces to "[object Object]", which
      is not JSON text: preview shows nothing and inflate degrades it to the
      empty list */
  lemma UndeflatedObject(data: map<string, Value>, name: string, files: FileStore)
    requires FieldValue(data, name).Obj?
    ensures Preview(FieldValue(data, name)) == ""
    ensures Inflate(data, name, files) == Delivered(Arr([]))
  {
    ObjectTextIsNotJson();
  }

  lemma ObjectTextIsNotJson()
    ensures Parse("[object Object]") == None
  {
    var t := "[object Object]";
    LetterStartsNoValue(t[1..]);
    assert SkipWs(t) == t;
  }

  /** Text starting with a letter other than n, t and f holds no JSON value,
      nor does an array whose first element starts with one */
  lemma LetterStartsNoValue(s: string)
    requires s != [] && 'a' <= s[0] <= 'z' && s[0] != 'n' && s[0] != 't' && s[0] != 'f'
    ensures ParseValue(s) == None && ParseArray(s) == None
  {
    assert SkipWs(s) == s;
  }

  /** A string literal holding a surrogate pair escape is JSON text: it reads
      as the one character the pair encodes, so it previews as the icon */
  lemma PreviewOfSurrogatePair()
    ensures Preview(Str("\"\\ud83d\\ude00\"")) == IconMarkup
  {
    SurrogatePairParses();
    assert ToText(Str("\"\\ud83d\\ude00\"")) == "\"\\ud83d\\ude00\"";
  }

  lemma SurrogatePairParses()
    ensures Parse("\"\\ud83d\\ude00\"") == Some(Str("\U{1F600}"))
  {
    var close := "\"";
    var u := ['\\'] + ("ud83d\\ude00" + close);
    PairEscape(close);
    assert ParseString(close) == Some(([], []));
    EscapeStep(u, '\U{1F600}', close, [], []);
    assert ['\U{1F600}'] + [] == "\U{1F600}";
    Prefixed('"', u);
    StringLiteralParses(['"'] + u, "\U{1F600}");
    assert ['"'] + u == "\"\\ud83d\\ude00\"";
  }

  /** A text that is one string literal parses as that string */
  lemma StringLiteralParses(t: string, str: string)
    requires t != [] && t[0] == '"'
    requires ParseString(t[1..]) == Some((str, []))
    ensures Parse(t) == Some(Str(str))
  {
    assert SkipWs(t) == t;
  }

  /** The string parser reads one escape, then the rest of the literal */
  lemma EscapeStep(u: string, c: char, after: string, str: string, rest: string)
    requires u != [] && u[0] == '\\'
    requires ParseEscape(u[1..]) == Some((c, after))
    requires ParseString(after) == Some((str, rest))
    ensures ParseString(u) == Some(([c] + str, rest))
  {
  }

  lemma PairEscape(rest: string)
    ensures ParseEscape("ud83d\\ude00" + rest) == Some(('\U{1F600}', rest))
  {
    var s := "ud83d\\ude00" + rest;
    assert HexUnit(s[1..]) == Some(0xD83D);
    assert HexUnit(s[7..]) == Some(0xDE00);
    assert SurrogatePair(0xD83D, 0xDE00) == '\U{1F600}';
  }

  /** The file record of the integration test's fixture */
  const FixtureFile: seq<Prop> := [
    Prop("id", Num(4)),
    Prop("path", Str("/tmp/super-cool-image.jpg")),
    Prop("original_filename", Str("super-cool-image.jpg")),
    Prop("content_type", Str("image/jpeg")),
    Prop("size", Num(2132)),
    Prop("url", Str("/files/0cceddac0d9ecc44b8905cbd29234e406d598d34-super-cool-image.jpg"))
  ]

  /** The integration test's scenario. An item whose book_image is
      {file_id: 4} is created against a store holding the fixture file, and
      reads back with the file's filename and size and a url rebuilt from
      its path, replacing the record's own url. The item is then updated
      (a new isbn) and saved, which stores the descriptor it holds again;
      loading it afterwards gives the same descriptor. */
  lemma BookImageScenario(files: FileStore)
    requires 4 in files && files[4] == FixtureFile
    ensures var data := map["title" := Str("Rung Ho!"), "author" := Str("Talbot Mundy"),
                   "isbn" := Str("1557424047"), "book_image" := Obj([Prop("file_id", Num(4))])];
            var created := Inflate(data["book_image" := Deflate(data, "book_image")], "book_image", files);
            && created.Delivered?
            && var updated := data["isbn" := Str("9781557424044")]["book_image" := created.value];
               var loaded := Inflate(updated["book_image" := Deflate(updated, "book_image")], "book_image", files);
               && loaded == created
               && created.value.Obj?
               && Get(created.value.props, "file_id") == Num(4)
               && Get(created.value.props, "original_filename") == Str("super-cool-image.jpg")
               && Get(created.value.props, "size") == Num(2132)
               && Get(created.value.props, "url") == Str("/files/" + "/tmp/super-cool-image.jpg")
  {
    var data := map["title" := Str("Rung Ho!"), "author" := Str("Talbot Mundy"),
                   "isbn" := Str("1557424047"), "book_image" := Obj([Prop("file_id", Num(4))])];
    BookImageCreated(files, data);
    FixtureIsRecord();
    SavedAgain(data, "book_image", files, 4, "isbn", Str("9781557424044"));
  }

  /** Editing another field of an item that holds record n's descriptor,
      then saving and loading it, gives the same descriptor back */
  lemma SavedAgain(data: map<string, Value>, name: string, files: FileStore, n: int, other: string, v: Value)
    requires RecordAt(files, n) && other != name
    requires name in data
    requires Inflate(data[name := Deflate(data, name)], name, files) == Delivered(Obj(Describe(files[n])))
    ensures var created := Inflate(data[name := Deflate(data, name)], name, files);
            var updated := data[other := v][name := created.value];
            Inflate(updated[name := Deflate(updated, name)], name, files) == created
  {
    DescriptorIsStable(data[other := v], name, files, n);
  }

  /** The first half of the scenario: creating the item and reading it back */
  lemma BookImageCreated(files: FileStore, data: map<string, Value>)
    requires 4 in files && files[4] == FixtureFile
    requires "book_image" in data && data["book_image"] == Obj([Prop("file_id", Num(4))])
    ensures var created := Inflate(data["book_image" := Deflate(data, "book_image")], "book_image", files);
            && created == Delivered(Obj(Describe(FixtureFile)))
            && Get(created.value.props, "file_id") == Num(4)
            && Get(created.value.props, "original_filename") == Str("super-cool-image.jpg")
            && Get(created.value.props, "size") == Num(2132)
            && Get(created.value.props, "url") == Str("/files/" + "/tmp/super-cool-image.jpg")
  {
    assert DistinctKeys(data["book_image"].props);
    FixtureIsRecord();
    FixtureAttributes();
    DeflateInflateRoundTrip(data, "book_image", files, 4);
    UrlFromPath(files[4], "/tmp/super-cool-image.jpg");
  }

  /** A record whose path is the text p gets the url "/files/" + p */
  lemma UrlFromPath(file: seq<Prop>, p: string)
    requires Get(file, "path") == Str(p)
    ensures Get(Describe(file), "url") == Str("/files/" + p)
  {
  }

  lemma FixtureIsRecord()
    ensures DistinctKeys(FixtureFile) && AllPropsJson(FixtureFile) && Get(FixtureFile, "id") == Num(4)
  {
    FixtureKeysDistinct();
  }

  lemma FixtureKeysDistinct()
    ensures DistinctKeys(FixtureFile)
  {
  }

  lemma FixtureAttributes()
    ensures Get(FixtureFile, "original_filename") == Str("super-cool-image.jpg")
    ensures Get(FixtureFile, "size") == Num(2132)
    ensures Get(FixtureFile, "path") == Str("/tmp/super-cool-image.jpg")
  {
  }
}
