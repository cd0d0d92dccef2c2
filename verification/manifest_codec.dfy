/** ManifestTools.SerializeToBinary and ManifestTools.DeserializeFromBinary over the token buffer.

    Layout, one token per field:
      0 signature, 1 file version, 2..4 EnableAddressable / LocationToLower / IncludeAssetGUID,
      5 OutputNameStyle, 6 PackageName, 7 PackageVersion, 8 asset count,
      then 6 tokens per asset, then the bundle count, then 9 tokens per bundle. */
module ManifestCodec {
  import opened Results
  import opened Buffer
  import opened PackageModel
  import opened ManifestIndex
  import opened Sequences

  const AssetCountPos: nat := 8

  /** Both tables can be counted in an Int32, as a C# List's Count always can. */
  predicate TableCountsFit(m: PackageManifest) {
    |m.AssetList| <= MaxInt32 && |m.BundleList| <= MaxInt32
  }

  /** What a successful load yields: the expected version, not both Addressable and
      LocationToLower, unique keys, and dictionaries that index the tables. */
  ghost predicate Loadable(settings: CodecSettings, m: PackageManifest, namer: FileNamer) {
    && m.FileVersion == settings.ManifestFileVersion
    && !(m.EnableAddressable && m.LocationToLower)
    && DistinctAssetPaths(m.AssetList)
    && BundleKeysUnique(m.BundleList, m.PackageName, m.OutputNameStyle, namer)
    && IsAssetIndex(m.AssetDic, m.AssetList)
    && IsBundleIndex(m.BundleDic, m.BundleDic2, m.BundleList, m.PackageName, m.OutputNameStyle, namer)
  }

  // ---------------------------------------------------------------- encoding

  function EncodeAsset(a: PackageAsset): seq<Token> {
    [Utf8(a.Address), Utf8(a.AssetPath), Utf8(a.AssetGUID), Utf8Array(a.AssetTags), I32(a.BundleID), I32Array(a.DependIDs)]
  }

  function EncodeAssets(assets: seq<PackageAsset>): (r: seq<Token>)
    ensures |r| == 6 * |assets|
  {
    if assets == [] then [] else EncodeAsset(assets[0]) + EncodeAssets(assets[1..])
  }

  function EncodeBundle(b: PackageBundle): seq<Token> {
    [Utf8(b.BundleName), U32(b.UnityCRC), Utf8(b.FileHash), Utf8(b.FileCRC), I64(b.FileSize),
     Bool(b.IsRawFile), Byte(b.LoadMethod), Utf8Array(b.Tags), I32Array(b.ReferenceIDs)]
  }

  function EncodeBundles(bundles: seq<PackageBundle>): (r: seq<Token>)
    ensures |r| == 9 * |bundles|
  {
    if bundles == [] then [] else EncodeBundle(bundles[0]) + EncodeBundles(bundles[1..])
  }

  function EncodeHeader(settings: CodecSettings, m: PackageManifest): seq<Token> {
    [U32(settings.ManifestFileSign), Utf8(m.FileVersion),
     Bool(m.EnableAddressable), Bool(m.LocationToLower), Bool(m.IncludeAssetGUID),
     I32(m.OutputNameStyle), Utf8(m.PackageName), Utf8(m.PackageVersion)]
  }

  /** The buffer SerializeToBinary fills: header, asset table, bundle table. */
  function Encode(settings: CodecSettings, m: PackageManifest): seq<Token>
    requires TableCountsFit(m)
  {
    EncodeHeader(settings, m) + [I32(|m.AssetList|)] + EncodeAssets(m.AssetList)
      + [I32(|m.BundleList|)] + EncodeBundles(m.BundleList)
  }

  lemma {:induction false} EncodeAssetsAppend(a: seq<PackageAsset>, b: seq<PackageAsset>)
    ensures EncodeAssets(a + b) == EncodeAssets(a) + EncodeAssets(b)
    decreases |a|
  {
    if a == [] {
      assert a + b == b;
    } else {
      assert (a + b)[1..] == a[1..] + b;
      EncodeAssetsAppend(a[1..], b);
    }
  }

  lemma {:induction false} EncodeBundlesAppend(a: seq<PackageBundle>, b: seq<PackageBundle>)
    ensures EncodeBundles(a + b) == EncodeBundles(a) + EncodeBundles(b)
    decreases |a|
  {
    if a == [] {
      assert a + b == b;
    } else {
      assert (a + b)[1..] == a[1..] + b;
      EncodeBundlesAppend(a[1..], b);
    }
  }

  lemma {:induction false} EncodeAssetsSnoc(assets: seq<PackageAsset>, i: nat)
    requires i < |assets|
    ensures EncodeAssets(assets[..i + 1]) == EncodeAssets(assets[..i]) + EncodeAsset(assets[i])
  {
    assert assets[..i + 1] == assets[..i] + [assets[i]];
    EncodeAssetsAppend(assets[..i], [assets[i]]);
    assert EncodeAssets([assets[i]]) == EncodeAsset(assets[i]) + EncodeAssets([]);
  }

  lemma {:induction false} EncodeBundlesSnoc(bundles: seq<PackageBundle>, i: nat)
    requires i < |bundles|
    ensures EncodeBundles(bundles[..i + 1]) == EncodeBundles(bundles[..i]) + EncodeBundle(bundles[i])
  {
    assert bundles[..i + 1] == bundles[..i] + [bundles[i]];
    EncodeBundlesAppend(bundles[..i], [bundles[i]]);
    assert EncodeBundles([bundles[i]]) == EncodeBundle(bundles[i]) + EncodeBundles([]);
  }

  /** Writes the signature, the file version and the header fields. */
  method WriteHeader(buffer: BufferWriter, settings: CodecSettings, manifest: PackageManifest)
    modifies buffer
    ensures buffer.tokens == old(buffer.tokens) + EncodeHeader(settings, manifest)
  {
    buffer.WriteUInt32(settings.ManifestFileSign);
    buffer.WriteUTF8(manifest.FileVersion);

    buffer.WriteBool(manifest.EnableAddressable);
    buffer.WriteBool(manifest.LocationToLower);
    buffer.WriteBool(manifest.IncludeAssetGUID);
    buffer.WriteInt32(manifest.OutputNameStyle);
    buffer.WriteUTF8(manifest.PackageName);
    buffer.WriteUTF8(manifest.PackageVersion);
    AppendEight(old(buffer.tokens), EncodeHeader(settings, manifest));
  }

  /** Writes one asset row, field by field. */
  method WritePackageAsset(buffer: BufferWriter, packageAsset: PackageAsset)
    modifies buffer
    ensures buffer.tokens == old(buffer.tokens) + EncodeAsset(packageAsset)
  {
    buffer.WriteUTF8(packageAsset.Address);
    buffer.WriteUTF8(packageAsset.AssetPath);
    buffer.WriteUTF8(packageAsset.AssetGUID);
    buffer.WriteUTF8Array(packageAsset.AssetTags);
    buffer.WriteInt32(packageAsset.BundleID);
    buffer.WriteInt32Array(packageAsset.DependIDs);
    AppendSix(old(buffer.tokens), EncodeAsset(packageAsset));
  }

  /** Writes one bundle row, field by field. */
  method WritePackageBundle(buffer: BufferWriter, packageBundle: PackageBundle)
    modifies buffer
    ensures buffer.tokens == old(buffer.tokens) + EncodeBundle(packageBundle)
  {
    buffer.WriteUTF8(packageBundle.BundleName);
    buffer.WriteUInt32(packageBundle.UnityCRC);
    buffer.WriteUTF8(packageBundle.FileHash);
    buffer.WriteUTF8(packageBundle.FileCRC);
    buffer.WriteInt64(packageBundle.FileSize);
    buffer.WriteBool(packageBundle.IsRawFile);
    buffer.WriteByte(packageBundle.LoadMethod);
    buffer.WriteUTF8Array(packageBundle.Tags);
    buffer.WriteInt32Array(packageBundle.ReferenceIDs);
    AppendNine(old(buffer.tokens), EncodeBundle(packageBundle));
  }

  /** SerializeToBinary: writes the signature, the header, then each table as a count
      followed by its rows, in list order. */
  method SerializeToBinary(settings: CodecSettings, manifest: PackageManifest) returns (data: seq<Token>)
    requires TableCountsFit(manifest)
    ensures data == Encode(settings, manifest)
  {
    var buffer := new BufferWriter();
    WriteHeader(buffer, settings, manifest);
    assert buffer.tokens == EncodeHeader(settings, manifest);

    buffer.WriteInt32(|manifest.AssetList|);
    ghost var assetStart := buffer.tokens;
    assert assetStart == EncodeHeader(settings, manifest) + [I32(|manifest.AssetList|)];
    var i := 0;
    while i < |manifest.AssetList|
      invariant 0 <= i <= |manifest.AssetList|
      invariant buffer.tokens == assetStart + EncodeAssets(manifest.AssetList[..i])
    {
      var packageAsset := manifest.AssetList[i];
      WritePackageAsset(buffer, packageAsset);
      EncodeAssetsSnoc(manifest.AssetList, i);
      AppendAssoc(assetStart, EncodeAssets(manifest.AssetList[..i]), EncodeAsset(packageAsset));
      i := i + 1;
    }
    assert manifest.AssetList[..i] == manifest.AssetList;

    buffer.WriteInt32(|manifest.BundleList|);
    ghost var bundleStart := buffer.tokens;
    assert bundleStart == assetStart + EncodeAssets(manifest.AssetList) + [I32(|manifest.BundleList|)];
    var j := 0;
    while j < |manifest.BundleList|
      invariant 0 <= j <= |manifest.BundleList|
      invariant buffer.tokens == bundleStart + EncodeBundles(manifest.BundleList[..j])
    {
      var packageBundle := manifest.BundleList[j];
      WritePackageBundle(buffer, packageBundle);
      EncodeBundlesSnoc(manifest.BundleList, j);
      AppendAssoc(bundleStart, EncodeBundles(manifest.BundleList[..j]), EncodeBundle(packageBundle));
      j := j + 1;
    }
    assert manifest.BundleList[..j] == manifest.BundleList;

    data := buffer.tokens;
  }

  // ---------------------------------------------------------------- decoding

  function ReadAssetAt(data: seq<Token>, pos: nat): Result<PackageAsset> {
    var address :- ReadUTF8At(data, pos);
    var assetPath :- ReadUTF8At(data, pos + 1);
    var assetGUID :- ReadUTF8At(data, pos + 2);
    var assetTags :- ReadUTF8ArrayAt(data, pos + 3);
    var bundleID :- ReadInt32At(data, pos + 4);
    var dependIDs :- ReadInt32ArrayAt(data, pos + 5);
    Success(PackageAsset(address, assetPath, assetGUID, assetTags, bundleID, dependIDs))
  }

  /** Reads `count` asset rows starting at `pos`; the first failing read decides the error. */
  function ReadAssets(data: seq<Token>, pos: nat, count: nat): (r: Result<seq<PackageAsset>>)
    ensures r.Success? ==> |r.value| == count
    decreases count
  {
    if count == 0 then Success([])
    else
      var asset :- ReadAssetAt(data, pos);
      var rest :- ReadAssets(data, pos + 6, count - 1);
      Success([asset] + rest)
  }

  function ReadBundleAt(data: seq<Token>, pos: nat): Result<PackageBundle> {
    var bundleName :- ReadUTF8At(data, pos);
    var unityCRC :- ReadUInt32At(data, pos + 1);
    var fileHash :- ReadUTF8At(data, pos + 2);
    var fileCRC :- ReadUTF8At(data, pos + 3);
    var fileSize :- ReadInt64At(data, pos + 4);
    var isRawFile :- ReadBoolAt(data, pos + 5);
    var loadMethod :- ReadByteAt(data, pos + 6);
    var tags :- ReadUTF8ArrayAt(data, pos + 7);
    var referenceIDs :- ReadInt32ArrayAt(data, pos + 8);
    Success(PackageBundle(bundleName, unityCRC, fileHash, fileCRC, fileSize, isRawFile, loadMethod, tags, referenceIDs))
  }

  /** Reads `count` bundle rows starting at `pos`; the first failing read decides the error. */
  function ReadBundles(data: seq<Token>, pos: nat, count: nat): (r: Result<seq<PackageBundle>>)
    ensures r.Success? ==> |r.value| == count
    decreases count
  {
    if count == 0 then Success([])
    else
      var bundle :- ReadBundleAt(data, pos);
      var rest :- ReadBundles(data, pos + 9, count - 1);
      Success([bundle] + rest)
  }

  /** The header fields DeserializeFromBinary reads before the tables. */
  datatype Header = Header(
    FileVersion: string,
    EnableAddressable: bool,
    LocationToLower: bool,
    IncludeAssetGUID: bool,
    OutputNameStyle: int32,
    PackageName: string,
    PackageVersion: string)

  /** Fields 0..7 with the three checks in source order: the signature right after it is
      read, the version right after it is read, the Addressable/LocationToLower exclusion
      once the whole header is read. */
  function DecodeHeader(settings: CodecSettings, data: seq<Token>): Result<Header> {
    var fileSign :- ReadUInt32At(data, 0);
    if fileSign != settings.ManifestFileSign then Failure(InvalidFormat) else
    var fileVersion :- ReadUTF8At(data, 1);
    if fileVersion != settings.ManifestFileVersion then Failure(IncompatibleVersion) else
    var enableAddressable :- ReadBoolAt(data, 2);
    var locationToLower :- ReadBoolAt(data, 3);
    var includeAssetGUID :- ReadBoolAt(data, 4);
    var outputNameStyle :- ReadInt32At(data, 5);
    var packageName :- ReadUTF8At(data, 6);
    var packageVersion :- ReadUTF8At(data, 7);
    if enableAddressable && locationToLower then Failure(InvalidConfiguration) else
    Success(Header(fileVersion, enableAddressable, locationToLower, includeAssetGUID,
                   outputNameStyle, packageName, packageVersion))
  }

  /** A counted asset table at `pos`: the Int32 count, refused when negative, then the rows. */
  function ReadAssetTableAt(data: seq<Token>, pos: nat): (r: Result<seq<PackageAsset>>)
    ensures r.Success? ==> |r.value| <= MaxInt32
  {
    var count :- ReadInt32At(data, pos);
    if count < 0 then Failure(NegativeCount) else ReadAssets(data, pos + 1, count)
  }

  /** A counted bundle table at `pos`: the Int32 count, refused when negative, then the rows. */
  function ReadBundleTableAt(data: seq<Token>, pos: nat): (r: Result<seq<PackageBundle>>)
    ensures r.Success? ==> |r.value| <= MaxInt32
  {
    var count :- ReadInt32At(data, pos);
    if count < 0 then Failure(NegativeCount) else ReadBundles(data, pos + 1, count)
  }

  /** The two tables after the header: the asset table, then the bundle table right after it. */
  function DecodeTables(data: seq<Token>): Result<(seq<PackageAsset>, seq<PackageBundle>)> {
    var assets :- ReadAssetTableAt(data, AssetCountPos);
    var bundles :- ReadBundleTableAt(data, AssetCountPos + 1 + 6 * |assets|);
    Success((assets, bundles))
  }

  /** The manifest built from a header and two tables: BundleDic and BundleDic2 first,
      then AssetDic. */
  function BuildManifest(h: Header, assets: seq<PackageAsset>, bundles: seq<PackageBundle>, namer: FileNamer)
    : Result<PackageManifest>
  {
    var bundleDics :- AddBundles(map[], map[], bundles, h.PackageName, h.OutputNameStyle, namer);
    var assetDic :- AddAssets(map[], assets);
    Success(PackageManifest(h.FileVersion, h.EnableAddressable, h.LocationToLower, h.IncludeAssetGUID,
                            h.OutputNameStyle, h.PackageName, h.PackageVersion,
                            assets, bundles, bundleDics.0, bundleDics.1, assetDic))
  }

  /** DeserializeFromBinary as a function. */
  function Decode(settings: CodecSettings, data: seq<Token>, namer: FileNamer): Result<PackageManifest> {
    var h :- DecodeHeader(settings, data);
    var tables :- DecodeTables(data);
    BuildManifest(h, tables.0, tables.1, namer)
  }

  /** `prefix` put in front of a successful read; a failure passes through. */
  function Prepend<T>(prefix: seq<T>, r: Result<seq<T>>): Result<seq<T>> {
    match r
    case Success(rest) => Success(prefix + rest)
    case Failure(e) => Failure(e)
  }

  /** Reads the signature, the file version and the header fields, checking each as
      DeserializeFromBinary does. */
  method ReadHeader(buffer: BufferReader, settings: CodecSettings) returns (r: Result<Header>)
    requires buffer.index == 0
    modifies buffer
    ensures r == DecodeHeader(settings, buffer.data)
    ensures r.Success? ==> buffer.index == AssetCountPos
  {
    var fileSign :- buffer.ReadUInt32();
    if fileSign != settings.ManifestFileSign {
      return Failure(InvalidFormat);
    }

    var fileVersion :- buffer.ReadUTF8();
    if fileVersion != settings.ManifestFileVersion {
      return Failure(IncompatibleVersion);
    }

    var enableAddressable :- buffer.ReadBool();
    var locationToLower :- buffer.ReadBool();
    var includeAssetGUID :- buffer.ReadBool();
    var outputNameStyle :- buffer.ReadInt32();
    var packageName :- buffer.ReadUTF8();
    var packageVersion :- buffer.ReadUTF8();

    if enableAddressable && locationToLower {
      return Failure(InvalidConfiguration);
    }
    r := Success(Header(fileVersion, enableAddressable, locationToLower, includeAssetGUID,
                        outputNameStyle, packageName, packageVersion));
  }

  /** Reads one asset row, field by field. */
  method ReadPackageAsset(buffer: BufferReader) returns (r: Result<PackageAsset>)
    modifies buffer
    ensures r == ReadAssetAt(buffer.data, old(buffer.index))
    ensures r.Success? ==> buffer.index == old(buffer.index) + 6
  {
    var address :- buffer.ReadUTF8();
    var assetPath :- buffer.ReadUTF8();
    var assetGUID :- buffer.ReadUTF8();
    var assetTags :- buffer.ReadUTF8Array();
    var bundleID :- buffer.ReadInt32();
    var dependIDs :- buffer.ReadInt32Array();
    r := Success(PackageAsset(address, assetPath, assetGUID, assetTags, bundleID, dependIDs));
  }

  /** Reads one bundle row, field by field. */
  method ReadPackageBundle(buffer: BufferReader) returns (r: Result<PackageBundle>)
    modifies buffer
    ensures r == ReadBundleAt(buffer.data, old(buffer.index))
    ensures r.Success? ==> buffer.index == old(buffer.index) + 9
  {
    var bundleName :- buffer.ReadUTF8();
    var unityCRC :- buffer.ReadUInt32();
    var fileHash :- buffer.ReadUTF8();
    var fileCRC :- buffer.ReadUTF8();
    var fileSize :- buffer.ReadInt64();
    var isRawFile :- buffer.ReadBool();
    var loadMethod :- buffer.ReadByte();
    var tags :- buffer.ReadUTF8Array();
    var referenceIDs :- buffer.ReadInt32Array();
    r := Success(PackageBundle(bundleName, unityCRC, fileHash, fileCRC, fileSize, isRawFile, loadMethod, tags, referenceIDs));
  }

  /** The asset loop: `count` rows read one after the other from the cursor. */
  method ReadAssetRows(buffer: BufferReader, count: nat) returns (r: Result<seq<PackageAsset>>)
    modifies buffer
    ensures r == ReadAssets(buffer.data, old(buffer.index), count)
    ensures r.Success? ==> buffer.index == old(buffer.index) + 6 * count
  {
    ghost var start := buffer.index;
    var assetList: seq<PackageAsset> := [];
    var i := 0;
    PrependEmpty(ReadAssets(buffer.data, start, count));
    while i < count
      invariant 0 <= i <= count
      invariant buffer.index == start + 6 * i
      invariant ReadAssets(buffer.data, start, count)
             == Prepend(assetList, ReadAssets(buffer.data, buffer.index, count - i))
    {
      var packageAsset :- ReadPackageAsset(buffer);
      PrependTwice(assetList, [packageAsset], ReadAssets(buffer.data, buffer.index, count - i - 1));
      assetList := assetList + [packageAsset];
      i := i + 1;
    }
    assert assetList + [] == assetList;
    r := Success(assetList);
  }

  /** The bundle loop: `count` rows read one after the other from the cursor. */
  method ReadBundleRows(buffer: BufferReader, count: nat) returns (r: Result<seq<PackageBundle>>)
    modifies buffer
    ensures r == ReadBundles(buffer.data, old(buffer.index), count)
    ensures r.Success? ==> buffer.index == old(buffer.index) + 9 * count
  {
    ghost var start := buffer.index;
    var bundleList: seq<PackageBundle> := [];
    var j := 0;
    PrependEmpty(ReadBundles(buffer.data, start, count));
    while j < count
      invariant 0 <= j <= count
      invariant buffer.index == start + 9 * j
      invariant ReadBundles(buffer.data, start, count)
             == Prepend(bundleList, ReadBundles(buffer.data, buffer.index, count - j))
    {
      var packageBundle :- ReadPackageBundle(buffer);
      PrependTwice(bundleList, [packageBundle], ReadBundles(buffer.data, buffer.index, count - j - 1));
      bundleList := bundleList + [packageBundle];
      j := j + 1;
    }
    assert bundleList + [] == bundleList;
    r := Success(bundleList);
  }

  /** The BundleDic/BundleDic2 loop: ParseBundle, then Dictionary.Add under the bundle name
      and under the file name, each of which throws on a key already present. */
  method FillBundleDics(bundleList: seq<PackageBundle>, packageName: string, nameStyle: int32, namer: FileNamer)
    returns (r: Result<(map<string, PackageBundle>, map<string, PackageBundle>)>)
    ensures r == AddBundles(map[], map[], bundleList, packageName, nameStyle, namer)
  {
    var bundleDic: map<string, PackageBundle> := map[];
    var bundleDic2: map<string, PackageBundle> := map[];
    var k := 0;
    while k < |bundleList|
      invariant 0 <= k <= |bundleList|
      invariant AddBundles(map[], map[], bundleList, packageName, nameStyle, namer)
             == AddBundles(bundleDic, bundleDic2, bundleList[k..], packageName, nameStyle, namer)
    {
      var packageBundle := bundleList[k];
      assert bundleList[k..][1..] == bundleList[k + 1..];
      var fileName :- namer(packageName, nameStyle, packageBundle);
      if packageBundle.BundleName in bundleDic {
        return Failure(DuplicateBundleName(packageBundle.BundleName));
      }
      bundleDic := bundleDic[packageBundle.BundleName := packageBundle];
      if fileName in bundleDic2 {
        return Failure(DuplicateFileName(fileName));
      }
      bundleDic2 := bundleDic2[fileName := packageBundle];
      k := k + 1;
    }
    r := Success((bundleDic, bundleDic2));
  }

  /** The AssetDic loop: a path already in the dictionary throws, any other is added. */
  method FillAssetDic(assetList: seq<PackageAsset>) returns (r: Result<map<string, PackageAsset>>)
    ensures r == AddAssets(map[], assetList)
  {
    var assetDic: map<string, PackageAsset> := map[];
    var n := 0;
    while n < |assetList|
      invariant 0 <= n <= |assetList|
      invariant AddAssets(map[], assetList) == AddAssets(assetDic, assetList[n..])
    {
      var packageAsset := assetList[n];
      assert assetList[n..][1..] == assetList[n + 1..];
      var assetPath := packageAsset.AssetPath;
      if assetPath in assetDic {
        return Failure(DuplicatePath(assetPath));
      }
      assetDic := assetDic[assetPath := packageAsset];
      n := n + 1;
    }
    r := Success(assetDic);
  }

  /** Reads the asset count, then that many asset rows. */
  method ReadAssetTable(buffer: BufferReader) returns (r: Result<seq<PackageAsset>>)
    modifies buffer
    ensures r == ReadAssetTableAt(buffer.data, old(buffer.index))
    ensures r.Success? ==> buffer.index == old(buffer.index) + 1 + 6 * |r.value|
  {
    var packageAssetCount :- buffer.ReadInt32();
    if packageAssetCount < 0 {
      return Failure(NegativeCount);
    }
    r := ReadAssetRows(buffer, packageAssetCount);
  }

  /** Reads the bundle count, then that many bundle rows. */
  method ReadBundleTable(buffer: BufferReader) returns (r: Result<seq<PackageBundle>>)
    modifies buffer
    ensures r == ReadBundleTableAt(buffer.data, old(buffer.index))
    ensures r.Success? ==> buffer.index == old(buffer.index) + 1 + 9 * |r.value|
  {
    var packageBundleCount :- buffer.ReadInt32();
    if packageBundleCount < 0 {
      return Failure(NegativeCount);
    }
    r := ReadBundleRows(buffer, packageBundleCount);
  }

  /** Reads both tables from the cursor left by ReadHeader. */
  method ReadTables(buffer: BufferReader) returns (r: Result<(seq<PackageAsset>, seq<PackageBundle>)>)
    requires buffer.index == AssetCountPos
    modifies buffer
    ensures r == DecodeTables(buffer.data)
  {
    var assetList :- ReadAssetTable(buffer);
    var bundleList :- ReadBundleTable(buffer);
    r := Success((assetList, bundleList));
  }

  /** DeserializeFromBinary: reads the buffer with a cursor, failing at the first bad
      signature, version, configuration, short read or repeated key. */
  method DeserializeFromBinary(settings: CodecSettings, binaryData: seq<Token>, namer: FileNamer)
    returns (r: Result<PackageManifest>)
    ensures r == Decode(settings, binaryData, namer)
  {
    var buffer := new BufferReader(binaryData);
    var header :- ReadHeader(buffer, settings);
    var tables :- ReadTables(buffer);
    var assetList, bundleList := tables.0, tables.1;

    var bundleDics :- FillBundleDics(bundleList, header.PackageName, header.OutputNameStyle, namer);
    var assetDic :- FillAssetDic(assetList);

    r := Success(PackageManifest(header.FileVersion, header.EnableAddressable, header.LocationToLower,
                                 header.IncludeAssetGUID, header.OutputNameStyle, header.PackageName,
                                 header.PackageVersion, assetList, bundleList, bundleDics.0, bundleDics.1, assetDic));
  }

  lemma {:induction false} PrependEmpty<T>(r: Result<seq<T>>)
    ensures Prepend([], r) == r
  {
    if r.Success? {
      assert [] + r.value == r.value;
    }
  }

  lemma {:induction false} PrependTwice<T>(a: seq<T>, b: seq<T>, r: Result<seq<T>>)
    ensures Prepend(a, Prepend(b, r)) == Prepend(a + b, r)
  {
    if r.Success? {
      assert a + (b + r.value) == (a + b) + r.value;
    }
  }

  // ---------------------------------------------------------------- round trip

  /** A row written by WritePackageAsset reads back as the same asset. */
  lemma {:induction false} ReadAssetAtOfEncoded(data: seq<Token>, pos: nat, a: PackageAsset)
    requires pos + 6 <= |data| && data[pos..pos + 6] == EncodeAsset(a)
    ensures ReadAssetAt(data, pos) == Success(a)
  {
    var row := data[pos..pos + 6];
    assert data[pos] == row[0] && data[pos + 1] == row[1] && data[pos + 2] == row[2];
    assert data[pos + 3] == row[3] && data[pos + 4] == row[4] && data[pos + 5] == row[5];
  }

  /** A row written by WritePackageBundle reads back as the same bundle. */
  lemma {:induction false} ReadBundleAtOfEncoded(data: seq<Token>, pos: nat, b: PackageBundle)
    requires pos + 9 <= |data| && data[pos..pos + 9] == EncodeBundle(b)
    ensures ReadBundleAt(data, pos) == Success(b)
  {
    var row := data[pos..pos + 9];
    assert data[pos] == row[0] && data[pos + 1] == row[1] && data[pos + 2] == row[2];
    assert data[pos + 3] == row[3] && data[pos + 4] == row[4] && data[pos + 5] == row[5];
    assert data[pos + 6] == row[6] && data[pos + 7] == row[7] && data[pos + 8] == row[8];
  }

  /** An encoded asset table reads back as the same assets, in order. */
  lemma {:induction false} ReadAssetsOfEncoded(data: seq<Token>, pos: nat, assets: seq<PackageAsset>)
    requires pos + 6 * |assets| <= |data|
    requires data[pos..pos + 6 * |assets|] == EncodeAssets(assets)
    ensures ReadAssets(data, pos, |assets|) == Success(assets)
    decreases |assets|
  {
    if assets != [] {
      var n := |assets|;
      var table := data[pos..pos + 6 * n];
      assert table == EncodeAsset(assets[0]) + EncodeAssets(assets[1..]);
      assert data[pos..pos + 6] == table[..6];
      ReadAssetAtOfEncoded(data, pos, assets[0]);
      assert data[pos + 6..pos + 6 + 6 * (n - 1)] == table[6..];
      ReadAssetsOfEncoded(data, pos + 6, assets[1..]);
      assert [assets[0]] + assets[1..] == assets;
    }
  }

  /** An encoded bundle table reads back as the same bundles, in order. */
  lemma {:induction false} ReadBundlesOfEncoded(data: seq<Token>, pos: nat, bundles: seq<PackageBundle>)
    requires pos + 9 * |bundles| <= |data|
    requires data[pos..pos + 9 * |bundles|] == EncodeBundles(bundles)
    ensures ReadBundles(data, pos, |bundles|) == Success(bundles)
    decreases |bundles|
  {
    if bundles != [] {
      var n := |bundles|;
      var table := data[pos..pos + 9 * n];
      assert table == EncodeBundle(bundles[0]) + EncodeBundles(bundles[1..]);
      assert data[pos..pos + 9] == table[..9];
      ReadBundleAtOfEncoded(data, pos, bundles[0]);
      assert data[pos + 9..pos + 9 + 9 * (n - 1)] == table[9..];
      ReadBundlesOfEncoded(data, pos + 9, bundles[1..]);
      assert [bundles[0]] + bundles[1..] == bundles;
    }
  }

  /** The header of an encoded manifest that passes the checks reads back unchanged. */
  lemma {:induction false} DecodeHeaderOfEncoded(settings: CodecSettings, m: PackageManifest, data: seq<Token>)
    requires m.FileVersion == settings.ManifestFileVersion && !(m.EnableAddressable && m.LocationToLower)
    requires |data| >= |EncodeHeader(settings, m)| && data[..|EncodeHeader(settings, m)|] == EncodeHeader(settings, m)
    ensures DecodeHeader(settings, data) == Success(Header(m.FileVersion, m.EnableAddressable, m.LocationToLower,
              m.IncludeAssetGUID, m.OutputNameStyle, m.PackageName, m.PackageVersion))
  {
    var h := EncodeHeader(settings, m);
    assert data[0] == h[0] && data[1] == h[1] && data[2] == h[2] && data[3] == h[3];
    assert data[4] == h[4] && data[5] == h[5] && data[6] == h[6] && data[7] == h[7];
  }

  /** A counted asset table written between any two pieces reads back unchanged. */
  lemma {:induction false} AssetTableOfEncoded(data: seq<Token>, pre: seq<Token>, assets: seq<PackageAsset>, post: seq<Token>)
    requires |assets| <= MaxInt32
    requires data == pre + [I32(|assets|)] + EncodeAssets(assets) + post
    ensures ReadAssetTableAt(data, |pre|) == Success(assets)
  {
    SliceOfMiddle(pre + [I32(|assets|)], EncodeAssets(assets), post);
    ReadAssetsOfEncoded(data, |pre| + 1, assets);
  }

  /** A counted bundle table written after any piece reads back unchanged. */
  lemma {:induction false} BundleTableOfEncoded(data: seq<Token>, pre: seq<Token>, bundles: seq<PackageBundle>)
    requires |bundles| <= MaxInt32
    requires data == pre + [I32(|bundles|)] + EncodeBundles(bundles)
    ensures ReadBundleTableAt(data, |pre|) == Success(bundles)
  {
    SliceOfLast(pre + [I32(|bundles|)], EncodeBundles(bundles));
    ReadBundlesOfEncoded(data, |pre| + 1, bundles);
  }

  /** Both tables of an encoded manifest read back unchanged. */
  lemma {:induction false} DecodeTablesOfEncoded(settings: CodecSettings, m: PackageManifest)
    requires TableCountsFit(m)
    ensures DecodeTables(Encode(settings, m)) == Success((m.AssetList, m.BundleList))
  {
    var data := Encode(settings, m);
    var header := EncodeHeader(settings, m);
    var assetCount, bundleCount := [I32(|m.AssetList|)], [I32(|m.BundleList|)];
    var assetTable, bundleTable := EncodeAssets(m.AssetList), EncodeBundles(m.BundleList);
    AppendAssoc(header + assetCount + assetTable, bundleCount, bundleTable);
    AssetTableOfEncoded(data, header, m.AssetList, bundleCount + bundleTable);
    BundleTableOfEncoded(data, header + assetCount + assetTable, m.BundleList);
  }

  /** Rebuilding the dictionaries of a loadable manifest gives back its own dictionaries. */
  lemma {:induction false} BuildManifestOfLoadable(settings: CodecSettings, m: PackageManifest, namer: FileNamer)
    requires Loadable(settings, m, namer)
    ensures BuildManifest(Header(m.FileVersion, m.EnableAddressable, m.LocationToLower, m.IncludeAssetGUID,
                                 m.OutputNameStyle, m.PackageName, m.PackageVersion),
                          m.AssetList, m.BundleList, namer) == Success(m)
  {
    BuildBundleDicsSpec(m.BundleList, m.PackageName, m.OutputNameStyle, namer);
    var (n, f) := AddBundles(map[], map[], m.BundleList, m.PackageName, m.OutputNameStyle, namer).value;
    BundleIndexUnique(n, f, m.BundleDic, m.BundleDic2, m.BundleList, m.PackageName, m.OutputNameStyle, namer);
    BuildAssetDicSpec(m.AssetList);
    AssetIndexUnique(AddAssets(map[], m.AssetList).value, m.AssetDic, m.AssetList);
  }

  /** DeserializeFromBinary undoes SerializeToBinary for every manifest it could have loaded. */
  lemma {:induction false} RoundTrip(settings: CodecSettings, m: PackageManifest, namer: FileNamer)
    requires Loadable(settings, m, namer) && TableCountsFit(m)
    ensures Decode(settings, Encode(settings, m), namer) == Success(m)
  {
    var data := Encode(settings, m);
    assert data[..|EncodeHeader(settings, m)|] == EncodeHeader(settings, m);
    DecodeHeaderOfEncoded(settings, m, data);
    DecodeTablesOfEncoded(settings, m);
    BuildManifestOfLoadable(settings, m, namer);
  }

  // ---------------------------------------------------------------- what a load accepts

  /** A row that reads successfully is exactly the encoding of what it reads as. */
  lemma {:induction false} EncodedOfReadAssetAt(data: seq<Token>, pos: nat)
    requires ReadAssetAt(data, pos).Success?
    ensures pos + 6 <= |data| && data[pos..pos + 6] == EncodeAsset(ReadAssetAt(data, pos).value)
  {
  }

  lemma {:induction false} EncodedOfReadBundleAt(data: seq<Token>, pos: nat)
    requires ReadBundleAt(data, pos).Success?
    ensures pos + 9 <= |data| && data[pos..pos + 9] == EncodeBundle(ReadBundleAt(data, pos).value)
  {
  }

  /** A table that reads successfully is exactly the encoding of the rows it reads as. */
  lemma {:induction false} EncodedOfReadAssets(data: seq<Token>, pos: nat, rows: seq<PackageAsset>)
    requires pos <= |data| && ReadAssets(data, pos, |rows|) == Success(rows)
    ensures pos + 6 * |rows| <= |data|
    ensures data[pos..pos + 6 * |rows|] == EncodeAssets(rows)
    decreases |rows|
  {
    if rows != [] {
      EncodedOfReadAssetAt(data, pos);
      assert ReadAssets(data, pos + 6, |rows| - 1) == Success(rows[1..]);
      EncodedOfReadAssets(data, pos + 6, rows[1..]);
      SliceOfTwo(data, pos, EncodeAsset(rows[0]), EncodeAssets(rows[1..]));
    }
  }

  lemma {:induction false} EncodedOfReadBundles(data: seq<Token>, pos: nat, rows: seq<PackageBundle>)
    requires pos <= |data| && ReadBundles(data, pos, |rows|) == Success(rows)
    ensures pos + 9 * |rows| <= |data|
    ensures data[pos..pos + 9 * |rows|] == EncodeBundles(rows)
    decreases |rows|
  {
    if rows != [] {
      EncodedOfReadBundleAt(data, pos);
      assert ReadBundles(data, pos + 9, |rows| - 1) == Success(rows[1..]);
      EncodedOfReadBundles(data, pos + 9, rows[1..]);
      SliceOfTwo(data, pos, EncodeBundle(rows[0]), EncodeBundles(rows[1..]));
    }
  }

  /** A header that loads is the encoding of the fields it loads as, and passed the
      version and configuration checks. */
  lemma {:induction false} EncodedOfDecodeHeader(settings: CodecSettings, data: seq<Token>, m: PackageManifest)
    requires DecodeHeader(settings, data) == Success(Header(m.FileVersion, m.EnableAddressable, m.LocationToLower,
               m.IncludeAssetGUID, m.OutputNameStyle, m.PackageName, m.PackageVersion))
    ensures m.FileVersion == settings.ManifestFileVersion && !(m.EnableAddressable && m.LocationToLower)
    ensures |data| >= AssetCountPos && data[..AssetCountPos] == EncodeHeader(settings, m)
  {
  }

  /** A counted asset table that loads is the encoding of the rows it loads as. */
  lemma {:induction false} EncodedOfAssetTable(data: seq<Token>, pos: nat, assets: seq<PackageAsset>)
    requires ReadAssetTableAt(data, pos) == Success(assets)
    ensures pos + 1 + 6 * |assets| <= |data| && data[pos..pos + 1 + 6 * |assets|] == [I32(|assets|)] + EncodeAssets(assets)
  {
    assert data[pos] == I32(|assets|);
    CountedAssets(data, pos, assets);
  }

  /** The count token followed by the encoded rows it reads. */
  lemma {:induction false} CountedAssets(data: seq<Token>, pos: nat, rows: seq<PackageAsset>)
    requires pos < |data| && ReadAssets(data, pos + 1, |rows|) == Success(rows)
    ensures pos + 1 + 6 * |rows| <= |data| && data[pos..pos + 1 + 6 * |rows|] == [data[pos]] + EncodeAssets(rows)
  {
    EncodedOfReadAssets(data, pos + 1, rows);
    SliceCons(data, pos, pos + 1 + 6 * |rows|, EncodeAssets(rows));
  }

  /** A counted bundle table that loads is the encoding of the rows it loads as. */
  lemma {:induction false} EncodedOfBundleTable(data: seq<Token>, pos: nat, bundles: seq<PackageBundle>)
    requires ReadBundleTableAt(data, pos) == Success(bundles)
    ensures pos + 1 + 9 * |bundles| <= |data| && data[pos..pos + 1 + 9 * |bundles|] == [I32(|bundles|)] + EncodeBundles(bundles)
  {
    assert data[pos] == I32(|bundles|);
    CountedBundles(data, pos, bundles);
  }

  /** The count token followed by the encoded rows it reads. */
  lemma {:induction false} CountedBundles(data: seq<Token>, pos: nat, rows: seq<PackageBundle>)
    requires pos < |data| && ReadBundles(data, pos + 1, |rows|) == Success(rows)
    ensures pos + 1 + 9 * |rows| <= |data| && data[pos..pos + 1 + 9 * |rows|] == [data[pos]] + EncodeBundles(rows)
  {
    EncodedOfReadBundles(data, pos + 1, rows);
    SliceCons(data, pos, pos + 1 + 9 * |rows|, EncodeBundles(rows));
  }

  /** Tables that load are the encoding of the rows they load as, counts included. */
  lemma {:induction false} EncodedOfDecodeTables(data: seq<Token>, assets: seq<PackageAsset>, bundles: seq<PackageBundle>)
    requires DecodeTables(data) == Success((assets, bundles))
    ensures |assets| <= MaxInt32 && |bundles| <= MaxInt32
    ensures var tables := [I32(|assets|)] + EncodeAssets(assets) + [I32(|bundles|)] + EncodeBundles(bundles);
      AssetCountPos + |tables| <= |data| && data[AssetCountPos..AssetCountPos + |tables|] == tables
  {
    var bundlePos := AssetCountPos + 1 + 6 * |assets|;
    assert ReadAssetTableAt(data, AssetCountPos) == Success(assets);
    assert ReadBundleTableAt(data, bundlePos) == Success(bundles);
    EncodedOfAssetTable(data, AssetCountPos, assets);
    EncodedOfBundleTable(data, bundlePos, bundles);
    var assetPart := [I32(|assets|)] + EncodeAssets(assets);
    SliceOfThree(data, AssetCountPos, assetPart, [I32(|bundles|)], EncodeBundles(bundles));
  }

  /** The manifest Decode returns is BuildManifest of the header and tables it read. */
  lemma {:induction false} DecodeParts(settings: CodecSettings, data: seq<Token>, namer: FileNamer)
    requires Decode(settings, data, namer).Success?
    ensures var m := Decode(settings, data, namer).value;
      && DecodeHeader(settings, data) == Success(Header(m.FileVersion, m.EnableAddressable, m.LocationToLower,
           m.IncludeAssetGUID, m.OutputNameStyle, m.PackageName, m.PackageVersion))
      && DecodeTables(data) == Success((m.AssetList, m.BundleList))
      && BuildManifest(DecodeHeader(settings, data).value, m.AssetList, m.BundleList, namer) == Success(m)
  {
  }

  /** A successful load returns a manifest with the expected version, not both Addressable
      and LocationToLower, unique keys and dictionaries that index its tables one entry per row. */
  lemma {:induction false} DecodeSound(settings: CodecSettings, data: seq<Token>, namer: FileNamer)
    requires Decode(settings, data, namer).Success?
    ensures var m := Decode(settings, data, namer).value;
      && Loadable(settings, m, namer) && TableCountsFit(m)
      && |m.AssetDic| == |m.AssetList| && |m.BundleDic| == |m.BundleList| && |m.BundleDic2| == |m.BundleList|
  {
    var m := Decode(settings, data, namer).value;
    DecodeParts(settings, data, namer);
    EncodedOfDecodeHeader(settings, data, m);
    EncodedOfDecodeTables(data, m.AssetList, m.BundleList);
    BuildBundleDicsSpec(m.BundleList, m.PackageName, m.OutputNameStyle, namer);
    BuildAssetDicSpec(m.AssetList);
  }

  /** A buffer that loads starts with exactly what SerializeToBinary writes for the manifest
      it loads as; anything after that is never read. */
  lemma {:induction false} DecodeReadsEncoding(settings: CodecSettings, data: seq<Token>, namer: FileNamer)
    requires Decode(settings, data, namer).Success?
    ensures var m := Decode(settings, data, namer).value;
      TableCountsFit(m) && |Encode(settings, m)| <= |data| && data[..|Encode(settings, m)|] == Encode(settings, m)
  {
    var m := Decode(settings, data, namer).value;
    DecodeParts(settings, data, namer);
    EncodedOfDecodeHeader(settings, data, m);
    EncodedOfDecodeTables(data, m.AssetList, m.BundleList);
    var tables := [I32(|m.AssetList|)] + EncodeAssets(m.AssetList) + [I32(|m.BundleList|)] + EncodeBundles(m.BundleList);
    AppendFive(EncodeHeader(settings, m), [I32(|m.AssetList|)], EncodeAssets(m.AssetList),
               [I32(|m.BundleList|)], EncodeBundles(m.BundleList));
    PrefixOfTwo(data, EncodeHeader(settings, m), tables);
  }

  // ---------------------------------------------------------------- the checks, one by one

  /** The signature is checked first: a buffer that does not start with the expected
      signature is rejected as an invalid format whatever follows. */
  lemma {:induction false} DecodeChecksSignatureFirst(settings: CodecSettings, data: seq<Token>, namer: FileNamer)
    requires |data| > 0 && data[0].U32? && data[0].u32 != settings.ManifestFileSign
    ensures Decode(settings, data, namer) == Failure(InvalidFormat)
  {
  }

  /** A correctly signed buffer of another file version is rejected before anything
      after the version is read; a successful load has the expected version. */
  lemma {:induction false} DecodeVersionGate(settings: CodecSettings, data: seq<Token>, namer: FileNamer)
    ensures |data| >= 2 && data[0] == U32(settings.ManifestFileSign) && data[1].Utf8?
            && data[1].str != settings.ManifestFileVersion
            ==> Decode(settings, data, namer) == Failure(IncompatibleVersion)
    ensures Decode(settings, data, namer).Success?
            ==> Decode(settings, data, namer).value.FileVersion == settings.ManifestFileVersion
  {
  }

  /** Addressable and LocationToLower together are refused before either table is read. */
  lemma {:induction false} DecodeRejectsAddressableWithLower(settings: CodecSettings, data: seq<Token>, namer: FileNamer)
    requires |data| >= AssetCountPos
    requires data[0] == U32(settings.ManifestFileSign) && data[1] == Utf8(settings.ManifestFileVersion)
    requires data[2] == Bool(true) && data[3] == Bool(true) && data[4].Bool? && data[5].I32?
    requires data[6].Utf8? && data[7].Utf8?
    ensures Decode(settings, data, namer) == Failure(InvalidConfiguration)
  {
  }

  /** An encoded manifest whose header passes the checks loads exactly when its asset paths
      are distinct and its bundles have distinct names and distinct file names: a repeated
      key is always refused. */
  lemma {:induction false} DecodeOfEncodedSucceeds(settings: CodecSettings, m: PackageManifest, namer: FileNamer)
    requires TableCountsFit(m) && m.FileVersion == settings.ManifestFileVersion
    requires !(m.EnableAddressable && m.LocationToLower)
    ensures Decode(settings, Encode(settings, m), namer).Success? <==>
      DistinctAssetPaths(m.AssetList) && BundleKeysUnique(m.BundleList, m.PackageName, m.OutputNameStyle, namer)
  {
    var data := Encode(settings, m);
    assert data[..|EncodeHeader(settings, m)|] == EncodeHeader(settings, m);
    DecodeHeaderOfEncoded(settings, m, data);
    DecodeTablesOfEncoded(settings, m);
    BuildBundleDicsSpec(m.BundleList, m.PackageName, m.OutputNameStyle, namer);
    BuildAssetDicSpec(m.AssetList);
  }

  /** With unique bundle keys, an encoded manifest that repeats an asset path is refused
      with `DuplicatePath`, the "AssetPath have existed" error. */
  lemma {:induction false} DecodeDuplicatePath(settings: CodecSettings, m: PackageManifest, namer: FileNamer)
    requires TableCountsFit(m) && m.FileVersion == settings.ManifestFileVersion
    requires !(m.EnableAddressable && m.LocationToLower)
    requires BundleKeysUnique(m.BundleList, m.PackageName, m.OutputNameStyle, namer)
    requires !DistinctAssetPaths(m.AssetList)
    ensures Decode(settings, Encode(settings, m), namer).Failure?
    ensures Decode(settings, Encode(settings, m), namer).error.DuplicatePath?
  {
    var data := Encode(settings, m);
    assert data[..|EncodeHeader(settings, m)|] == EncodeHeader(settings, m);
    DecodeHeaderOfEncoded(settings, m, data);
    DecodeTablesOfEncoded(settings, m);
    BuildBundleDicsSpec(m.BundleList, m.PackageName, m.OutputNameStyle, namer);
    BuildAssetDicSpec(m.AssetList);
    AddAssetsFailsWithPath(map[], m.AssetList);
  }

}
