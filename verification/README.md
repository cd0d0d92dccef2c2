# YooAsset package manifest codec and bundle build record

This project models two pieces of YooAsset's asset-packaging pipeline and proves properties about them.

**The package-manifest binary codec** (`ManifestTools`).
- `SerializeToBinary` writes, in a fixed order:
  - the manifest's signature and file version;
  - the header flags and strings;
  - a counted asset table;
  - a counted bundle table.
- `DeserializeFromBinary` reads this layout back with a cursor. It refuses:
  - a wrong signature;
  - another file version;
  - a manifest that enables Addressable together with LocationToLower.
- It then rebuilds three lookup dictionaries: `BundleDic` (bundle name to bundle), `BundleDic2` (file name to bundle) and `AssetDic` (asset path to asset). Each is built in a loop that refuses a repeated key.
- Three small helpers go with the codec:
  - the remote file naming rule;
  - the extension of a bundle name;
  - the conversion of bundles to `BundleInfo` records for unpacking or importing.

**The editor's bundle build record** (`BuildBundleInfo`). It is a class that packs assets into one bundle and refuses an asset path that is already packed. It answers queries from the packed list:
- whether it holds a raw file;
- its file extension;
- its tag union;
- its asset paths;
- its collected assets;
- the Unity build entry.

Files:
- `results.dfy`: the error outcomes. Each exception the source throws becomes a `Failure`.
- `buffer.dfy`: the buffer as a sequence of typed tokens, one per `Write*`/`Read*` call.
  - `BufferWriter` appends tokens.
  - `BufferReader` walks the tokens with a cursor. A read of the wrong kind fails with `MalformedData`, and a read past the end fails with `BufferUnderflow`.
- `package_model.dfy`: the `PackageAsset`, `PackageBundle` and `PackageManifest` records.
- `manifest_index.dfy`: the dictionary-building loops as folds, with what they build and when they fail.
- `manifest_codec.dfy`: the encoder and the writer methods. It also holds the decoder as staged functions, the reader methods proved equal to them, and the round-trip and acceptance lemmas.
- `bundle_naming.dfy`: the `GetRemoteBundleFileExtension` and `GetRemoteBundleFileName` naming rules.
- `bundle_conversion.dfy`: the `ConvertTo*Info` conversions.
- `build_bundle_info.dfy`: the `BuildBundleInfo` class and the functions that specify its queries.
- `sequences.dfy`: generic facts about sequence concatenation and slicing.

Several things the codec uses are parameters:
- the `YooAssetSettings` constants (`ManifestFileSign`, `ManifestFileVersion`) form a `CodecSettings` value;
- `PackageBundle.ParseBundle`, which gives a bundle its `FileName`, is a function parameter `namer` that returns a file name or an error;
- `PackageBundle.StreamingFilePath` and `PersistentTools.ConvertToWWWPath` are function parameters;
- `YooAssetSettingsData.Setting.RawFileVariant` and `AssetBundleFileVariant` are parameters of `GetAppendExtension`.

## Model

| member | source | states |
|---|---|---|
| ManifestCodec.SerializeToBinary | Assets/YooAsset/Runtime/PackageSystem/ManifestTools.cs:24-78 | The buffer written is exactly `Encode(settings, manifest)`: signature, version, six header fields, the asset count and rows in list order, the bundle count and rows in list order |
| ManifestCodec.WriteHeader | Assets/YooAsset/Runtime/PackageSystem/ManifestTools.cs:31-43 | Appends the eight header tokens, signature first, to what the buffer already held |
| ManifestCodec.WritePackageAsset | Assets/YooAsset/Runtime/PackageSystem/ManifestTools.cs:49-55 | Appends one asset's six fields in the order the reader expects them |
| ManifestCodec.WritePackageBundle | Assets/YooAsset/Runtime/PackageSystem/ManifestTools.cs:62-71 | Appends one bundle's nine fields in the order the reader expects them |
| ManifestCodec.EncodeAssets | Assets/YooAsset/Runtime/PackageSystem/ManifestTools.cs:46-56 | An asset table takes six tokens per asset |
| ManifestCodec.EncodeBundles | Assets/YooAsset/Runtime/PackageSystem/ManifestTools.cs:59-72 | A bundle table takes nine tokens per bundle |
| ManifestCodec.EncodeAssetsAppend | Assets/YooAsset/Runtime/PackageSystem/ManifestTools.cs:47-56 | Writing two asset lists one after the other writes the encoding of their concatenation |
| ManifestCodec.EncodeBundlesAppend | Assets/YooAsset/Runtime/PackageSystem/ManifestTools.cs:60-72 | Writing two bundle lists one after the other writes the encoding of their concatenation |
| ManifestCodec.EncodeAssetsSnoc | Assets/YooAsset/Runtime/PackageSystem/ManifestTools.cs:47-56 | One more loop iteration extends the written asset table by exactly that asset's row |
| ManifestCodec.EncodeBundlesSnoc | Assets/YooAsset/Runtime/PackageSystem/ManifestTools.cs:60-72 | One more loop iteration extends the written bundle table by exactly that bundle's row |
| ManifestCodec.ReadAssets | Assets/YooAsset/Runtime/PackageSystem/ManifestTools.cs:124-134 | A successful read of `count` asset rows yields exactly `count` assets |
| ManifestCodec.ReadBundles | Assets/YooAsset/Runtime/PackageSystem/ManifestTools.cs:139-152 | A successful read of `count` bundle rows yields exactly `count` bundles |
| ManifestCodec.ReadAssetTableAt | Assets/YooAsset/Runtime/PackageSystem/ManifestTools.cs:122-134 | A counted asset table that loads has at most Int32.MaxValue rows (a negative count fails) |
| ManifestCodec.ReadBundleTableAt | Assets/YooAsset/Runtime/PackageSystem/ManifestTools.cs:137-152 | A counted bundle table that loads has at most Int32.MaxValue rows (a negative count fails) |
| ManifestCodec.ReadHeader | Assets/YooAsset/Runtime/PackageSystem/ManifestTools.cs:96-119 | Reading with the cursor gives the header specification `DecodeHeader`: InvalidFormat on a wrong signature, IncompatibleVersion on another version, InvalidConfiguration for Addressable with LocationToLower; on success the cursor is at the asset count |
| ManifestCodec.ReadPackageAsset | Assets/YooAsset/Runtime/PackageSystem/ManifestTools.cs:126-133 | Reading one asset with the cursor agrees with the row specification, and a success moves the cursor six fields on |
| ManifestCodec.ReadPackageBundle | Assets/YooAsset/Runtime/PackageSystem/ManifestTools.cs:141-150 | Reading one bundle with the cursor agrees with the row specification, and a success moves the cursor nine fields on |
| ManifestCodec.ReadAssetRows | Assets/YooAsset/Runtime/PackageSystem/ManifestTools.cs:124-134 | The asset loop yields what `ReadAssets` specifies: rows in buffer order, or the first failing read's error; on success the cursor is past all rows |
| ManifestCodec.ReadBundleRows | Assets/YooAsset/Runtime/PackageSystem/ManifestTools.cs:139-152 | The bundle loop yields what `ReadBundles` specifies, and on success the cursor is past all rows |
| ManifestCodec.ReadAssetTable | Assets/YooAsset/Runtime/PackageSystem/ManifestTools.cs:122-134 | Reading the count and then the rows agrees with `ReadAssetTableAt`; the cursor ends right after the table |
| ManifestCodec.ReadBundleTable | Assets/YooAsset/Runtime/PackageSystem/ManifestTools.cs:137-152 | Reading the count and then the rows agrees with `ReadBundleTableAt`; the cursor ends right after the table |
| ManifestCodec.ReadTables | Assets/YooAsset/Runtime/PackageSystem/ManifestTools.cs:121-152 | Both tables read from the cursor left by the header agree with `DecodeTables` |
| ManifestCodec.FillBundleDics | Assets/YooAsset/Runtime/PackageSystem/ManifestTools.cs:155-163 | The BundleDic/BundleDic2 loop computes the fold `AddBundles`, including its failures |
| ManifestCodec.FillAssetDic | Assets/YooAsset/Runtime/PackageSystem/ManifestTools.cs:165-175 | The AssetDic loop computes the fold `AddAssets`, including its DuplicatePath failure |
| ManifestCodec.DeserializeFromBinary | Assets/YooAsset/Runtime/PackageSystem/ManifestTools.cs:91-178 | The cursor-based loader returns exactly `Decode(settings, data, namer)`, which the lemmas below characterise |
| ManifestCodec.RoundTrip | Assets/YooAsset/Runtime/PackageSystem/ManifestTools.cs:24-178 | Loading what `SerializeToBinary` writes gives back the same manifest: header fields, both tables in order, and the three dictionaries. This holds for every manifest a load can produce, with both counts within Int32 |
| ManifestCodec.DecodeOfEncodedSucceeds | Assets/YooAsset/Runtime/PackageSystem/ManifestTools.cs:155-175 | An encoded manifest with the expected version and without Addressable+LocationToLower loads if and only if its asset paths are distinct and its bundles get distinct names and distinct file names |
| ManifestCodec.DecodeDuplicatePath | Assets/YooAsset/Runtime/PackageSystem/ManifestTools.cs:165-175 | An encoded manifest with unique bundle keys but a repeated asset path is refused, and the error is DuplicatePath |
| ManifestCodec.DecodeSound | Assets/YooAsset/Runtime/PackageSystem/ManifestTools.cs:91-178 | Every successful load returns a manifest with the expected version, not both Addressable and LocationToLower, unique keys, and dictionaries that map every key to its row; AssetDic has exactly AssetList.Count entries and BundleDic and BundleDic2 exactly BundleList.Count each |
| ManifestCodec.DecodeReadsEncoding | Assets/YooAsset/Runtime/PackageSystem/ManifestTools.cs:91-152 | A buffer that loads starts with exactly the encoding of the manifest it loads as; nothing else is accepted |
| ManifestCodec.DecodeChecksSignatureFirst | Assets/YooAsset/Runtime/PackageSystem/ManifestTools.cs:97-99 | A buffer whose first field is a UInt32 other than the signature fails with InvalidFormat, whatever follows |
| ManifestCodec.DecodeVersionGate | Assets/YooAsset/Runtime/PackageSystem/ManifestTools.cs:102-109 | A signed buffer with another version string fails with IncompatibleVersion, whatever follows; a successful load's FileVersion is the expected version |
| ManifestCodec.DecodeRejectsAddressableWithLower | Assets/YooAsset/Runtime/PackageSystem/ManifestTools.cs:117-119 | A valid header with both Addressable and LocationToLower fails with InvalidConfiguration, whatever the tables hold |
| ManifestCodec.DecodeParts | Assets/YooAsset/Runtime/PackageSystem/ManifestTools.cs:91-178 | A successful load is the header it read, the two tables it read, and the dictionaries rebuilt from them |
| ManifestCodec.DecodeHeaderOfEncoded | Assets/YooAsset/Runtime/PackageSystem/ManifestTools.cs:96-119 | A header written by SerializeToBinary that passes the checks reads back field for field |
| ManifestCodec.ReadAssetAtOfEncoded | Assets/YooAsset/Runtime/PackageSystem/ManifestTools.cs:126-133 | An asset row as written reads back as the same asset |
| ManifestCodec.ReadBundleAtOfEncoded | Assets/YooAsset/Runtime/PackageSystem/ManifestTools.cs:141-150 | A bundle row as written reads back as the same bundle |
| ManifestCodec.ReadAssetsOfEncoded | Assets/YooAsset/Runtime/PackageSystem/ManifestTools.cs:124-134 | An asset table as written reads back as the same assets in the same order |
| ManifestCodec.ReadBundlesOfEncoded | Assets/YooAsset/Runtime/PackageSystem/ManifestTools.cs:139-152 | A bundle table as written reads back as the same bundles in the same order |
| ManifestCodec.AssetTableOfEncoded | Assets/YooAsset/Runtime/PackageSystem/ManifestTools.cs:121-134 | A counted asset table reads back unchanged wherever it is placed in the buffer |
| ManifestCodec.BundleTableOfEncoded | Assets/YooAsset/Runtime/PackageSystem/ManifestTools.cs:136-152 | A counted bundle table at the end of the buffer reads back unchanged |
| ManifestCodec.DecodeTablesOfEncoded | Assets/YooAsset/Runtime/PackageSystem/ManifestTools.cs:121-152 | Both tables of an encoded manifest read back as its AssetList and BundleList |
| ManifestCodec.BuildManifestOfLoadable | Assets/YooAsset/Runtime/PackageSystem/ManifestTools.cs:155-175 | Rebuilding the dictionaries of a loadable manifest gives back its own dictionaries |
| ManifestCodec.EncodedOfReadAssetAt | Assets/YooAsset/Runtime/PackageSystem/ManifestTools.cs:126-133 | An asset row that reads successfully is exactly the encoding of the asset it reads as |
| ManifestCodec.EncodedOfReadBundleAt | Assets/YooAsset/Runtime/PackageSystem/ManifestTools.cs:141-150 | A bundle row that reads successfully is exactly the encoding of the bundle it reads as |
| ManifestCodec.EncodedOfReadAssets | Assets/YooAsset/Runtime/PackageSystem/ManifestTools.cs:124-134 | Asset rows that read successfully are exactly the encoding of the assets they read as |
| ManifestCodec.EncodedOfReadBundles | Assets/YooAsset/Runtime/PackageSystem/ManifestTools.cs:139-152 | Bundle rows that read successfully are exactly the encoding of the bundles they read as |
| ManifestCodec.EncodedOfDecodeHeader | Assets/YooAsset/Runtime/PackageSystem/ManifestTools.cs:96-119 | A header that loads is the encoding of its fields, and those fields passed the version and configuration checks |
| ManifestCodec.EncodedOfAssetTable | Assets/YooAsset/Runtime/PackageSystem/ManifestTools.cs:122-134 | A counted asset table that loads is its count followed by the encoding of its rows |
| ManifestCodec.CountedAssets | Assets/YooAsset/Runtime/PackageSystem/ManifestTools.cs:122-134 | The count token followed by asset rows that read successfully is one slice holding the count and the encoded rows |
| ManifestCodec.EncodedOfBundleTable | Assets/YooAsset/Runtime/PackageSystem/ManifestTools.cs:137-152 | A counted bundle table that loads is its count followed by the encoding of its rows |
| ManifestCodec.CountedBundles | Assets/YooAsset/Runtime/PackageSystem/ManifestTools.cs:137-152 | The count token followed by bundle rows that read successfully is one slice holding the count and the encoded rows |
| ManifestCodec.EncodedOfDecodeTables | Assets/YooAsset/Runtime/PackageSystem/ManifestTools.cs:121-152 | Tables that load are exactly the two counted tables SerializeToBinary writes for them, and both counts fit in an Int32 |
| ManifestIndex.AddAssetsSucceeds | Assets/YooAsset/Runtime/PackageSystem/ManifestTools.cs:165-175 | The AssetDic loop succeeds if and only if the asset paths are distinct and none is already a key |
| ManifestIndex.AddAssetsKeys | Assets/YooAsset/Runtime/PackageSystem/ManifestTools.cs:165-175 | After a successful AssetDic loop, the keys are exactly the earlier keys and the asset paths |
| ManifestIndex.AddAssetsValues | Assets/YooAsset/Runtime/PackageSystem/ManifestTools.cs:165-175 | A successful AssetDic loop keeps earlier entries, maps each asset's path to that asset and adds one entry per asset |
| ManifestIndex.AddAssetsFailsWithPath | Assets/YooAsset/Runtime/PackageSystem/ManifestTools.cs:169-172 | The AssetDic loop can fail only on a repeated path, with DuplicatePath |
| ManifestIndex.AddBundlesSucceeds | Assets/YooAsset/Runtime/PackageSystem/ManifestTools.cs:155-163 | The BundleDic loop succeeds if and only if every bundle gets a file name, names and file names are distinct, and none is already a key |
| ManifestIndex.AddBundlesSuccessKeys | Assets/YooAsset/Runtime/PackageSystem/ManifestTools.cs:155-163 | A successful BundleDic loop met only new, distinct bundle names and file names |
| ManifestIndex.AddBundlesFailureKeys | Assets/YooAsset/Runtime/PackageSystem/ManifestTools.cs:155-163 | When names and file names are distinct and every bundle is named, the loop fails only on a key that was already present |
| ManifestIndex.AddBundlesNameKeys | Assets/YooAsset/Runtime/PackageSystem/ManifestTools.cs:158-161 | After a successful loop, the BundleDic keys are exactly the earlier keys and the bundle names |
| ManifestIndex.AddBundlesNameValues | Assets/YooAsset/Runtime/PackageSystem/ManifestTools.cs:158-161 | A successful loop keeps earlier BundleDic entries, maps each bundle's name to that bundle and adds one entry per bundle |
| ManifestIndex.AddBundlesByFile | Assets/YooAsset/Runtime/PackageSystem/ManifestTools.cs:158-162 | A successful loop keeps earlier BundleDic2 entries and maps each bundle's file name to that bundle |
| ManifestIndex.AddBundlesFileCount | Assets/YooAsset/Runtime/PackageSystem/ManifestTools.cs:158-162 | A successful loop adds one BundleDic2 entry per bundle |
| ManifestIndex.AddBundlesFileKeys | Assets/YooAsset/Runtime/PackageSystem/ManifestTools.cs:158-162 | Every BundleDic2 key after a successful loop was already there or is some bundle's file name |
| ManifestIndex.BuildAssetDicSpec | Assets/YooAsset/Runtime/PackageSystem/ManifestTools.cs:165-175 | AssetDic is built exactly when the paths are distinct, and then it maps every path to its asset, with AssetList.Count entries |
| ManifestIndex.BuildNameDicSpec | Assets/YooAsset/Runtime/PackageSystem/ManifestTools.cs:156-161 | A built BundleDic maps exactly the bundle names, each to its bundle, with BundleList.Count entries |
| ManifestIndex.BuildFileDicSpec | Assets/YooAsset/Runtime/PackageSystem/ManifestTools.cs:157-162 | A built BundleDic2 maps exactly the bundles' file names, each to its bundle, with BundleList.Count entries |
| ManifestIndex.BuildBundleDicsSpec | Assets/YooAsset/Runtime/PackageSystem/ManifestTools.cs:155-163 | BundleDic and BundleDic2 are built exactly when every bundle is named and names and file names are distinct; then both index the table |
| ManifestIndex.AssetIndexUnique | Assets/YooAsset/Runtime/PackageSystem/ManifestTools.cs:165-175 | An asset table has at most one path index |
| ManifestIndex.NameIndexUnique | Assets/YooAsset/Runtime/PackageSystem/ManifestTools.cs:156-161 | A bundle table has at most one name index |
| ManifestIndex.FileIndexUnique | Assets/YooAsset/Runtime/PackageSystem/ManifestTools.cs:157-162 | A bundle table has at most one file-name index |
| ManifestIndex.BundleIndexUnique | Assets/YooAsset/Runtime/PackageSystem/ManifestTools.cs:155-163 | A bundle table has at most one pair of name and file-name indexes |
| BundleNaming.ExtensionDot | Assets/YooAsset/Runtime/PackageSystem/ManifestTools.cs:183 | The backward scan finds the last '.' with no '.' or directory separator after it, or reports that there is none |
| BundleNaming.GetRemoteBundleFileExtension | Assets/YooAsset/Runtime/PackageSystem/ManifestTools.cs:181-185 | The extension is non-empty if and only if the name has a '.' that is not last and has no '.' or separator after it; a non-empty extension starts with '.', has at least one more character, holds no further '.' or separator, and ends the bundle name |
| BundleNaming.LastIndexOf | Assets/YooAsset/Runtime/PackageSystem/ManifestTools.cs:194 | The result is the last position of the character, or -1 exactly when it does not occur |
| BundleNaming.GetRemoteBundleFileName | Assets/YooAsset/Runtime/PackageSystem/ManifestTools.cs:186-201 | Style 1 gives hash then extension. Style 4 succeeds if and only if the name has a '.'; it then gives the name before its last '.', '_', the hash and the extension. Every other style fails with UnsupportedNameStyle |
| BundleNaming.ExtensionAfterAnyPrefix | Assets/YooAsset/Runtime/PackageSystem/ManifestTools.cs:181-185 | An extension found in a bundle name stays the extension of any text it ends |
| BundleNaming.RemoteNameKeepsExtension | Assets/YooAsset/Runtime/PackageSystem/ManifestTools.cs:181-201 | With the bundle's own extension, the remote file name has the same extension as the bundle in both styles |
| BundleConversion.ConvertToUnpackInfo | Assets/YooAsset/Runtime/PackageSystem/ManifestTools.cs:206-212 | The unpack info keeps the bundle, loads from streaming, and uses the WWW form of the streaming path as both main and fallback URL |
| BundleConversion.ConvertToImportInfo | Assets/YooAsset/Runtime/PackageSystem/ManifestTools.cs:217-223 | The import info keeps the bundle, has load mode None, and uses the WWW form of the file path as both main and fallback URL |
| BundleConversion.UnpackIsImportFromStreaming | Assets/YooAsset/Runtime/PackageSystem/ManifestTools.cs:206-223 | Unpacking a bundle is importing it from its streaming path, with the LoadFromStreaming mode instead of None |
| BundleConversion.ConvertToUnpackInfos | Assets/YooAsset/Runtime/PackageSystem/ManifestTools.cs:228-237 | The batch has the list's length, and its i-th entry is the unpack info of the i-th bundle |
| BundleConversion.UnpackInfosCoverList | Assets/YooAsset/Runtime/PackageSystem/ManifestTools.cs:228-237 | The batch carries exactly the listed bundles, all to be loaded from streaming |
| BuildBundle.BuildBundleInfo.constructor | Assets/YooAsset/Editor/AssetBundleBuilder/BuildBundleInfo.cs:39-42 | A new record has the given bundle name and no assets, so its paths are trivially distinct |
| BuildBundle.BuildBundleInfo.IsContainsAsset | Assets/YooAsset/Editor/AssetBundleBuilder/BuildBundleInfo.cs:47-57 | True if and only if some packed asset has that path |
| BuildBundle.BuildBundleInfo.PackAsset | Assets/YooAsset/Editor/AssetBundleBuilder/BuildBundleInfo.cs:62-68 | A new path is appended at the end, with nothing else changed. A packed path is refused with DuplicateAsset and the list is left unchanged. Distinct paths stay distinct |
| BuildBundle.BuildBundleInfo.IsRawFile | Assets/YooAsset/Editor/AssetBundleBuilder/BuildBundleInfo.cs:25-36 | True if and only if some packed asset is raw, so false for an empty bundle |
| BuildBundle.BuildBundleInfo.GetAppendExtension | Assets/YooAsset/Editor/AssetBundleBuilder/BuildBundleInfo.cs:73-79 | "." followed by the raw-file variant when some asset is raw, otherwise "." followed by the AssetBundle variant |
| BuildBundle.BuildBundleInfo.GetAssetTags | Assets/YooAsset/Editor/AssetBundleBuilder/BuildBundleInfo.cs:84-96 | The nested loop returns `Dedup(AllTags(BuildinAssets))`, which `AssetTagsSpec` characterises |
| BuildBundle.AssetTagsSpec | Assets/YooAsset/Editor/AssetBundleBuilder/BuildBundleInfo.cs:84-96 | The tag list holds exactly the union of all assets' tags, each once, in order of first occurrence (assets in order, tags within an asset in order) |
| BuildBundle.AllTags | Assets/YooAsset/Editor/AssetBundleBuilder/BuildBundleInfo.cs:87-89 | A tag is listed if and only if some asset carries it |
| BuildBundle.Dedup | Assets/YooAsset/Editor/AssetBundleBuilder/BuildBundleInfo.cs:91-92 | The "add if not yet contained" loop keeps exactly the values of its input, without repeats |
| BuildBundle.DedupFirstOccurrenceOrder | Assets/YooAsset/Editor/AssetBundleBuilder/BuildBundleInfo.cs:86-95 | The kept values appear in the order of their first occurrence in the input |
| BuildBundle.Paths | Assets/YooAsset/Editor/AssetBundleBuilder/BuildBundleInfo.cs:103 | The projection has the list's length and maps position i to the i-th asset's path |
| BuildBundle.BuildBundleInfo.GetBuildinAssetPaths | Assets/YooAsset/Editor/AssetBundleBuilder/BuildBundleInfo.cs:101-104 | One path per packed asset, in packing order |
| BuildBundle.CollectAssets | Assets/YooAsset/Editor/AssetBundleBuilder/BuildBundleInfo.cs:111 | The filter holds exactly the collected assets of the list, and no more than the list |
| BuildBundle.CollectAssetsAppend | Assets/YooAsset/Editor/AssetBundleBuilder/BuildBundleInfo.cs:111 | The filter distributes over concatenation, so the collected assets keep packing order |
| BuildBundle.BuildBundleInfo.GetCollectAssetInfos | Assets/YooAsset/Editor/AssetBundleBuilder/BuildBundleInfo.cs:109-112 | Exactly the packed assets marked as collected |
| BuildBundle.BuildBundleInfo.CreatePipelineBuild | Assets/YooAsset/Editor/AssetBundleBuilder/BuildBundleInfo.cs:117-125 | The entry has the bundle name, an empty variant and the packed asset paths; the asset names have no repeats while the record is valid |

## Left out
- JSON serialisation (`SerializeToJson`, `DeserializeFromJson`) is left out because it is reflection-based `JsonUtility` plus file I/O.
- The `FileStream` in `SerializeToBinary` is left out. The model returns the written buffer instead of creating, writing and flushing a file.
- `BufferWriter` and `BufferReader` are modelled abstractly, one typed token per call. Their byte layout, byte order, UTF-8 encoding and the `ManifestFileMaxSize` capacity are not modelled. Two behaviours follow from this abstraction:
  - a write never overflows;
  - a read of the wrong kind of field fails with `MalformedData`, where the real reader would reinterpret bytes.
- `PackageBundle.ParseBundle` is not part of this model. It is the `namer` parameter, which returns a file name or an error. The other fields it computes on the bundle are not stored.
- `PersistentTools.ConvertToWWWPath`, `PackageBundle.StreamingFilePath` and the `YooAssetSettings`/`YooAssetSettingsData` constants are parameters.
- `BundleNaming.GetRemoteBundleFileExtension` follows `Path.GetExtension` with the Windows separator set '/' and '\\', without the ':' volume separator and without the invalid-path-character exception. On Android, iOS, macOS and Linux `Path.GetExtension` stops only at '/', and '\\' is an ordinary character there, so for a name such as `a.b\\c` the model returns "" where those platforms return ".b\\c".
- Null strings and null lists are not modelled, because Dafny values are never null.
- `List.Count` fits an Int32 in C#. The model states this as `TableCountsFit`, which `SerializeToBinary` and `RoundTrip` require.
- A negative table count fails with `NegativeCount`, which models the exception thrown by the `List<T>` constructor.
- `GetRemoteBundleFileName` in style 4 with no '.' in the bundle name fails with `MissingExtensionDot`, which models the exception thrown by `string.Remove(-1)`.
- `BuildAssetInfo` keeps only the four fields this class reads: `AssetPath`, `IsRawAsset`, `IsCollectAsset` and `AssetTags`.
- `BuildBundleInfo.GetBuildinAssetPaths`, `GetCollectAssetInfos` and `CreatePipelineBuild` return Dafny sequences and datatypes instead of fresh C# arrays. The model does not capture that each call allocates a new array.
- `BuildEditorOnlyContext`, `TaskPreFilterEditorOnly` and `TaskPostFilterEditorOnly` are not part of this model. They are file snapshots, parallel restore and Unity prefab editing, all I/O and engine calls.
