/** The mandatory-key file contract of FileJSONData and FileJSON in g_sorcery/fileutils.py. */
module FileUtils {
  import opened Wrappers
  import opened Values
  import opened Serialization
  import opened FileSystem

  /** `key in content` for every mandatory key, in list order: the first key found
      missing is a FileJSONError, and a content that does not support `in` fails with
      the error of that test. */
  function CheckKeys(content: Value, keys: seq<string>): (r: Result<()>)
    ensures content.Map? ==> (r.Ok? <==> forall i :: 0 <= i < |keys| ==> keys[i] in content.m)
    ensures content.Map? && r.Err? ==> r.error == FileJSONError
    ensures |keys| == 0 ==> r.Ok?
    ensures r.Ok? ==> r == Ok(())
    decreases |keys|
  {
    if |keys| == 0 then Ok(())
    else
      match Contains(content, keys[0])
      case Err(e) => Err(e)
      case Ok(found) => if !found then Err(FileJSONError) else CheckKeys(content, keys[1..])
  }

  /** The loop `for key in self.mandatories: if not key in content: raise`. */
  method CheckMandatories(content: Value, keys: seq<string>) returns (r: Result<()>)
    ensures r == CheckKeys(content, keys)
  {
    var i := 0;
    while i < |keys|
      invariant 0 <= i <= |keys|
      invariant CheckKeys(content, keys) == CheckKeys(content, keys[i..])
    {
      assert keys[i..][1..] == keys[i + 1..];
      var found := Contains(content, keys[i]);
      if found.Err? {
        return Err(found.error);
      }
      if !found.value {
        return Err(FileJSONError);
      }
      i := i + 1;
    }
    return Ok(());
  }

  /** The content a missing file is created with: every mandatory key mapped to "". */
  function EmptyContent(keys: seq<string>): (r: Value)
    ensures r.Map? && r.m.Keys == set i | 0 <= i < |keys| :: keys[i]
    ensures forall k :: k in r.m ==> r.m[k] == Str("")
  {
    Map(map k | k in keys :: Str(""))
  }

  /** The loop `for key in self.mandatories: content[key] = ""`. */
  method FillMandatories(keys: seq<string>) returns (content: Props)
    ensures Map(content) == EmptyContent(keys)
  {
    content := map[];
    var i := 0;
    while i < |keys|
      invariant 0 <= i <= |keys|
      invariant content == map k | k in keys[..i] :: Str("")
    {
      assert keys[..i + 1] == keys[..i] + [keys[i]];
      content := content[keys[i] := Str("")];
      i := i + 1;
    }
    assert keys[..i] == keys;
  }

  /** A freshly created file satisfies its own mandatory keys and encodes to itself. */
  lemma EmptyContentFacts(keys: seq<string>)
    ensures CheckKeys(EmptyContent(keys), keys) == Ok(())
    ensures Encode(EmptyContent(keys)) == Ok(EmptyContent(keys))
  {
    var m := EmptyContent(keys).m;
    assert forall i :: 0 <= i < |keys| ==> keys[i] in m;
    assert forall k :: k in m ==> Encode(m[k]) == Ok(Str(""));
    assert !(exists k :: k in m && Encode(m[k]).Err?);
    assert EncodeFields(m) == m;
    assert Encode(Map(m)) == Ok(Map(m));
    assert CheckKeys(Map(m), keys).Ok?;
  }

  /** What json.dump leaves in the file: the encoded tree, or, when encoding fails
      part way, a file that is not valid JSON. */
  function Stored(content: Value): (r: FileData)
    ensures r.Json? <==> Encode(content).Ok?
  {
    match Encode(content)
    case Ok(t) => Json(t)
    case Err(_) => Unparsable
  }

  /** The content read from a present file: decode, then check the mandatory keys. */
  function ReadContent(data: FileData, reg: Registry, keys: seq<string>): (r: Result<Value>)
    ensures data.Unparsable? ==> r == Err(ValueError)
    ensures r.Ok? ==> data.Json? && Decode(reg, data.tree) == r && CheckKeys(r.value, keys).Ok?
  {
    match data
    case Unparsable => Err(ValueError)
    case Json(t) =>
      var c :- Decode(reg, t);
      var _ :- CheckKeys(c, keys);
      Ok(c)
  }

  /** Write then read returns the same content, for content the codec round-trips. */
  lemma WriteThenRead(content: Value, reg: Registry, keys: seq<string>)
    requires RoundTrips(reg, content)
    requires CheckKeys(content, keys).Ok?
    ensures ReadContent(Stored(content), reg, keys) == Ok(content)
  {
    RoundTrip(reg, content);
  }

  /** A present dict that lacks a mandatory key is refused with FileJSONError. */
  lemma ReadRejectsMissingKey(t: Value, reg: Registry, keys: seq<string>, i: nat)
    requires Decode(reg, t).Ok? && Decode(reg, t).value.Map?
    requires i < |keys| && keys[i] !in Decode(reg, t).value.m
    ensures ReadContent(Json(t), reg, keys) == Err(FileJSONError)
  {
  }

  /** A JSON file with a list of mandatory keys. It is never changed after it is made. */
  datatype FileJson = FileJson(directory: string, name: string, mandatories: seq<string>)
  {
    function Path(): string
    {
      PathJoin(directory, name)
    }

    /** FileJSONData.read: create the directory; a missing file is created holding the
        empty content, which is returned; a present file is decoded and checked. */
    method Read(disk: Disk, reg: Registry) returns (r: Result<Value>)
      modifies disk
      ensures disk.dirs == old(disk.dirs) + {directory}
      ensures Path() !in old(disk.files) ==>
        r == Ok(EmptyContent(mandatories)) &&
        disk.files == old(disk.files)[Path() := Json(EmptyContent(mandatories))]
      ensures Path() in old(disk.files) ==>
        disk.files == old(disk.files) && r == ReadContent(old(disk.files)[Path()], reg, mandatories)
    {
      disk.MakeDirs(directory);
      if Path() !in disk.files {
        var content := FillMandatories(mandatories);
        EmptyContentFacts(mandatories);
        disk.WriteFile(Path(), Json(Map(content)));
        return Ok(Map(content));
      }
      var data := disk.files[Path()];
      if data.Unparsable? {
        return Err(ValueError);
      }
      var decoded := Decode(reg, data.tree);
      if decoded.Err? {
        return Err(decoded.error);
      }
      var checked := CheckMandatories(decoded.value, mandatories);
      if checked.Err? {
        return Err(checked.error);
      }
      return decoded;
    }

    /** FileJSONData.write: the mandatory keys are checked before anything is touched;
        then the directory is created and the encoded content written. */
    method Write(disk: Disk, content: Value) returns (r: Result<()>)
      modifies disk
      ensures CheckKeys(content, mandatories).Err? ==>
        r == Err(CheckKeys(content, mandatories).error) &&
        disk.files == old(disk.files) && disk.dirs == old(disk.dirs)
      ensures CheckKeys(content, mandatories).Ok? ==>
        disk.dirs == old(disk.dirs) + {directory} &&
        disk.files == old(disk.files)[Path() := Stored(content)] &&
        (r.Ok? <==> Encode(content).Ok?) &&
        (r.Err? ==> r.error == TypeError)
    {
      var checked := CheckMandatories(content, mandatories);
      if checked.Err? {
        return Err(checked.error);
      }
      disk.MakeDirs(directory);
      disk.WriteFile(Path(), Stored(content));
      var encoded := Encode(content);
      if encoded.Err? {
        return Err(encoded.error);
      }
      return Ok(());
    }
  }
}
