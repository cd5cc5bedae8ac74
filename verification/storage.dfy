/**
 The storage contract of an upload: which metadata fields are kept, how the report
 identifier looks, where the two artifacts go, and when the identifier is handed back.
 Library and OS outcomes (the JSON encoder, the random bytes, each file operation)
 are inputs of the model.
 */
module Storage {
  import opened Wrappers
  import opened Files
  import Hex

  /** Bytes of randomness behind one identifier. */
  const RandomBytes: nat := 16

  /** Length of an identifier: two hex digits per random byte. */
  const IdLength: nat := 32

  /** The byte that terminates the metadata document. */
  const Newline: Byte := 0x0A

  /** The recognised upload fields, as the lower-case form keys that feed them. */
  const FieldKeys: seq<string> := ["prod", "ver", "guid", "ptime", "ctime", "email", "comments"]

  datatype Metadata = Metadata(
    prod: string,
    ver: string,
    guid: string,
    ptime: string,
    ctime: string,
    email: string,
    comments: string)

  /** The text fields of a multipart form: each key may carry several values. */
  type Attributes = map<string, seq<string>>

  /**
   One uploaded file part. `opens` is whether opening it succeeds; `contents` is the
   outcome of reading it to the end.
   */
  datatype FileHeader = FileHeader(opens: bool, contents: Option<Bytes>)

  /**
   What the world answers during one store: the JSON encoder, the 16 bytes read from
   the random source, and whether each of the two file writes succeeds.
   */
  datatype StoreEnv = StoreEnv(
    encode: Metadata -> Option<Bytes>,
    random: Bytes,
    jsonWriteOk: bool,
    dumpWriteOk: bool)

  datatype StoreError = MarshalFailed | JsonWriteFailed | OpenFailed | ReadFailed | DumpWriteFailed

  /** Go's `(string, error)` result together with the disk after the call. */
  datatype Stored = Stored(id: string, err: Option<StoreError>, disk: Disk)

  /** A well-formed report identifier: 32 lower-case hex digits. */
  predicate IsReportId(s: string) {
    |s| == IdLength && forall i :: 0 <= i < |s| ==> Hex.IsHexDigit(s[i])
  }

  /** Indexing a Go map with an absent key gives a nil slice. */
  function Values(attribs: Attributes, key: string): seq<string> {
    if key in attribs then attribs[key] else []
  }

  function GetFirstOrEmpty(values: seq<string>): (r: string)
    ensures |values| == 0 ==> r == ""
    ensures |values| > 0 ==> r == values[0]
  {
    if |values| == 0 then "" else values[0]
  }

  /** The field of `m` that the form key `key` populates ("" for an unrecognised key). */
  function FieldNamed(m: Metadata, key: string): string {
    match key
    case "prod" => m.prod
    case "ver" => m.ver
    case "guid" => m.guid
    case "ptime" => m.ptime
    case "ctime" => m.ctime
    case "email" => m.email
    case "comments" => m.comments
    case _ => ""
  }

  function SelectMetadata(attribs: Attributes): Metadata {
    Metadata(
      GetFirstOrEmpty(Values(attribs, "prod")),
      GetFirstOrEmpty(Values(attribs, "ver")),
      GetFirstOrEmpty(Values(attribs, "guid")),
      GetFirstOrEmpty(Values(attribs, "ptime")),
      GetFirstOrEmpty(Values(attribs, "ctime")),
      GetFirstOrEmpty(Values(attribs, "email")),
      GetFirstOrEmpty(Values(attribs, "comments")))
  }

  /** The form a metadata record would come from: one value under each recognised key. */
  function AttributesOf(m: Metadata): Attributes {
    map k | k in FieldKeys :: [FieldNamed(m, k)]
  }

  /** Metadata with every field empty. */
  const EmptyMetadata := Metadata("", "", "", "", "", "", "")

  /** Each field is the first value under its own key, or "" when there is none. */
  lemma SelectMetadataFields(attribs: Attributes, key: string)
    requires key in FieldKeys
    ensures FieldNamed(SelectMetadata(attribs), key) == GetFirstOrEmpty(Values(attribs, key))
    ensures key !in attribs || attribs[key] == [] ==> FieldNamed(SelectMetadata(attribs), key) == ""
  {
  }

  /** Two forms give the same metadata exactly when they agree on the first value of every recognised key. */
  lemma SelectMetadataEqualIff(a: Attributes, b: Attributes)
    ensures SelectMetadata(a) == SelectMetadata(b) <==>
      forall i :: 0 <= i < |FieldKeys| ==> GetFirstOrEmpty(Values(a, FieldKeys[i])) == GetFirstOrEmpty(Values(b, FieldKeys[i]))
  {
    if SelectMetadata(a) == SelectMetadata(b) {
      forall i | 0 <= i < |FieldKeys|
        ensures GetFirstOrEmpty(Values(a, FieldKeys[i])) == GetFirstOrEmpty(Values(b, FieldKeys[i]))
      {
        SelectMetadataFields(a, FieldKeys[i]);
        SelectMetadataFields(b, FieldKeys[i]);
      }
    } else {
      var ma, mb := SelectMetadata(a), SelectMetadata(b);
      var i: int :|
        && 0 <= i < |FieldKeys|
        && FieldNamed(ma, FieldKeys[i]) != FieldNamed(mb, FieldKeys[i])
        by {
          if ma.prod != mb.prod { assert FieldNamed(ma, FieldKeys[0]) != FieldNamed(mb, FieldKeys[0]); }
          else if ma.ver != mb.ver { assert FieldNamed(ma, FieldKeys[1]) != FieldNamed(mb, FieldKeys[1]); }
          else if ma.guid != mb.guid { assert FieldNamed(ma, FieldKeys[2]) != FieldNamed(mb, FieldKeys[2]); }
          else if ma.ptime != mb.ptime { assert FieldNamed(ma, FieldKeys[3]) != FieldNamed(mb, FieldKeys[3]); }
          else if ma.ctime != mb.ctime { assert FieldNamed(ma, FieldKeys[4]) != FieldNamed(mb, FieldKeys[4]); }
          else if ma.email != mb.email { assert FieldNamed(ma, FieldKeys[5]) != FieldNamed(mb, FieldKeys[5]); }
          else { assert FieldNamed(ma, FieldKeys[6]) != FieldNamed(mb, FieldKeys[6]); }
        }
      SelectMetadataFields(a, FieldKeys[i]);
      SelectMetadataFields(b, FieldKeys[i]);
    }
  }

  /** A key outside the recognised seven has no effect, whether added, changed or removed. */
  lemma SelectMetadataIgnoresOtherKeys(attribs: Attributes, key: string, values: seq<string>)
    requires key !in FieldKeys
    ensures SelectMetadata(attribs[key := values]) == SelectMetadata(attribs)
    ensures SelectMetadata(attribs - {key}) == SelectMetadata(attribs)
  {
  }

  /** A form with none of the recognised keys yields all-empty metadata. */
  lemma SelectMetadataOfUnrecognised(attribs: Attributes)
    requires forall i :: 0 <= i < |FieldKeys| ==> FieldKeys[i] !in attribs
    ensures SelectMetadata(attribs) == EmptyMetadata
  {
    assert FieldKeys[0] !in attribs && FieldKeys[1] !in attribs && FieldKeys[2] !in attribs && FieldKeys[3] !in attribs;
    assert FieldKeys[4] !in attribs && FieldKeys[5] !in attribs && FieldKeys[6] !in attribs;
  }

  /** Selection loses nothing of a record: the form built from it selects it back. */
  lemma SelectMetadataRoundTrip(m: Metadata)
    ensures SelectMetadata(AttributesOf(m)) == m
  {
    var a := AttributesOf(m);
    assert FieldKeys[0] in a && FieldKeys[1] in a && FieldKeys[2] in a && FieldKeys[3] in a;
    assert FieldKeys[4] in a && FieldKeys[5] in a && FieldKeys[6] in a;
    assert Values(a, "prod") == [m.prod] && Values(a, "ver") == [m.ver] && Values(a, "guid") == [m.guid];
    assert Values(a, "ptime") == [m.ptime] && Values(a, "ctime") == [m.ctime];
    assert Values(a, "email") == [m.email] && Values(a, "comments") == [m.comments];
  }

  /** The identifier: the 16 random bytes written as lower-case hex. */
  function GetRandomFilename(random: Bytes): (id: string)
    requires |random| == RandomBytes
    ensures IsReportId(id)
  {
    Hex.EncodeToString(random)
  }

  /** Every well-formed identifier is reachable, and different random bytes never collide. */
  lemma RandomFilenameBijective(random: Bytes, other: Bytes, id: string)
    requires |random| == RandomBytes && |other| == RandomBytes
    ensures GetRandomFilename(random) == GetRandomFilename(other) <==> random == other
    ensures IsReportId(id) ==> exists r: Bytes :: |r| == RandomBytes && GetRandomFilename(r) == id
  {
    Hex.EncodeInjective(random, other);
    if IsReportId(id) {
      var r := Hex.DecodeString(id);
      Hex.EncodeDecode(id);
      assert GetRandomFilename(r) == id;
    }
  }

  function BaseName(dir: string, id: string): string {
    dir + "/" + id
  }

  function JsonPath(dir: string, id: string): string {
    BaseName(dir, id) + ".json"
  }

  function DumpPath(dir: string, id: string): string {
    BaseName(dir, id) + ".dmp"
  }

  /**
   The two artifacts never share a path, and each kind of path names exactly one
   identifier, so uploads with different identifiers own disjoint files.
   */
  lemma ArtifactPathsDisjoint(dir: string, id: string, other: string)
    ensures JsonPath(dir, id) != DumpPath(dir, other)
    ensures JsonPath(dir, id) == JsonPath(dir, other) <==> id == other
    ensures DumpPath(dir, id) == DumpPath(dir, other) <==> id == other
  {
    DifferentLastChar(BaseName(dir, id), ".json", BaseName(dir, other), ".dmp");
    FrameCancel(dir + "/", id, other, ".json");
    FrameCancel(dir + "/", id, other, ".dmp");
  }

  /** The metadata document: the encoder's output followed by one newline byte. */
  function Document(encoded: Bytes): Bytes {
    encoded + [Newline]
  }

  /**
   Writes the `.json` document, then reads the first uploaded file and writes it to the
   `.dmp` path next to it. Only when every step succeeds is the identifier returned; a
   failure after the first write leaves the `.json` file behind.
   */
  function WriteToDisk(dir: string, headers: seq<FileHeader>, attribs: Attributes, env: StoreEnv, disk: Disk): (r: Stored)
    requires |headers| > 0
    requires |env.random| == RandomBytes
    ensures r.err.Some? ==> r.id == ""
    ensures r.err.None? ==> r.id == GetRandomFilename(env.random) && IsReportId(r.id)
    ensures r.err.None? <==>
      && env.encode(SelectMetadata(attribs)).Some?
      && env.jsonWriteOk
      && headers[0].opens
      && headers[0].contents.Some?
      && env.dumpWriteOk
    ensures r.err.None? ==>
      r.disk == disk[JsonPath(dir, r.id) := Document(env.encode(SelectMetadata(attribs)).value)]
                    [DumpPath(dir, r.id) := headers[0].contents.value]
    // Each error names the first step that failed.
    ensures r.err == Some(MarshalFailed) <==> env.encode(SelectMetadata(attribs)).None?
    ensures r.err == Some(JsonWriteFailed) <==> env.encode(SelectMetadata(attribs)).Some? && !env.jsonWriteOk
    ensures r.err == Some(OpenFailed) <==>
      env.encode(SelectMetadata(attribs)).Some? && env.jsonWriteOk && !headers[0].opens
    ensures r.err == Some(ReadFailed) <==>
      env.encode(SelectMetadata(attribs)).Some? && env.jsonWriteOk && headers[0].opens && headers[0].contents.None?
    ensures r.err == Some(DumpWriteFailed) <==>
      && env.encode(SelectMetadata(attribs)).Some? && env.jsonWriteOk
      && headers[0].opens && headers[0].contents.Some? && !env.dumpWriteOk
    // Nothing is written unless the metadata write succeeds; once it has, a later failure leaves it behind.
    ensures env.encode(SelectMetadata(attribs)).None? || !env.jsonWriteOk ==> r.disk == disk
    ensures env.encode(SelectMetadata(attribs)).Some? && env.jsonWriteOk && r.err.Some? ==>
      r.disk == disk[JsonPath(dir, GetRandomFilename(env.random)) := Document(env.encode(SelectMetadata(attribs)).value)]
    ensures r.err == Some(MarshalFailed) || r.err == Some(JsonWriteFailed) ==> r.disk == disk
    ensures r.err.Some? && r.err.value in {OpenFailed, ReadFailed, DumpWriteFailed} ==>
      var id := GetRandomFilename(env.random);
      && JsonPath(dir, id) in r.disk
      && r.disk == disk[JsonPath(dir, id) := Document(env.encode(SelectMetadata(attribs)).value)]
    ensures disk.Keys <= r.disk.Keys
  {
    var meta := SelectMetadata(attribs);
    match env.encode(meta)
    case None => Stored("", Some(MarshalFailed), disk)
    case Some(encoded) =>
      var basename := GetRandomFilename(env.random);
      if !env.jsonWriteOk then Stored("", Some(JsonWriteFailed), disk)
      else
        var withJson := disk[JsonPath(dir, basename) := Document(encoded)];
        if !headers[0].opens then Stored("", Some(OpenFailed), withJson)
        else match headers[0].contents
          case None => Stored("", Some(ReadFailed), withJson)
          case Some(dump) =>
            if !env.dumpWriteOk then Stored("", Some(DumpWriteFailed), withJson)
            else Stored(basename, None, withJson[DumpPath(dir, basename) := dump])
  }

  /**
   With an injective encoder, the `.json` document of a successful store determines the
   metadata selected from the form.
   */
  lemma DocumentDeterminesMetadata(encode: Metadata -> Option<Bytes>, a: Metadata, b: Metadata)
    requires forall m, n :: encode(m).Some? && encode(m) == encode(n) ==> m == n
    requires encode(a).Some? && encode(b).Some?
    ensures Document(encode(a).value) == Document(encode(b).value) <==> a == b
  {
    var da, db := Document(encode(a).value), Document(encode(b).value);
    if da == db {
      assert encode(a).value == da[..|da| - 1];
      assert encode(b).value == db[..|db| - 1];
    }
  }

  /**
   Identical uploads still get their own storage: two stores that differ only in the
   random bytes give different identifiers.
   */
  lemma NoDeduplication(dir: string, headers: seq<FileHeader>, attribs: Attributes, env: StoreEnv, random: Bytes, disk: Disk)
    requires |headers| > 0
    requires |env.random| == RandomBytes && |random| == RandomBytes
    requires random != env.random
    requires WriteToDisk(dir, headers, attribs, env, disk).err.None?
    ensures var first := WriteToDisk(dir, headers, attribs, env, disk);
      var second := WriteToDisk(dir, headers, attribs, env.(random := random), first.disk);
      && second.err.None?
      && second.id != first.id
      && JsonPath(dir, first.id) in second.disk && DumpPath(dir, first.id) in second.disk
  {
    RandomFilenameBijective(env.random, random, "");
  }
}
