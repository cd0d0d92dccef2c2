/** The records the manifest is made of: PackageAsset, PackageBundle and PackageManifest. */
module PackageModel {
  import opened Results
  import opened Buffer

  /** One row of the manifest's asset table. */
  datatype PackageAsset = PackageAsset(
    Address: string,
    AssetPath: string,
    AssetGUID: string,
    AssetTags: seq<string>,
    BundleID: int32,
    DependIDs: seq<int32>)

  /** One row of the manifest's bundle table (the persisted fields only). */
  datatype PackageBundle = PackageBundle(
    BundleName: string,
    UnityCRC: uint32,
    FileHash: string,
    FileCRC: string,
    FileSize: int64,
    IsRawFile: bool,
    LoadMethod: uint8,
    Tags: seq<string>,
    ReferenceIDs: seq<int32>)

  /** A loaded manifest: header, the two tables, and the three lookup dictionaries
      rebuilt from the tables (BundleDic by bundle name, BundleDic2 by file name,
      AssetDic by asset path). */
  datatype PackageManifest = PackageManifest(
    FileVersion: string,
    EnableAddressable: bool,
    LocationToLower: bool,
    IncludeAssetGUID: bool,
    OutputNameStyle: int32,
    PackageName: string,
    PackageVersion: string,
    AssetList: seq<PackageAsset>,
    BundleList: seq<PackageBundle>,
    BundleDic: map<string, PackageBundle>,
    BundleDic2: map<string, PackageBundle>,
    AssetDic: map<string, PackageAsset>)

  /** The YooAssetSettings constants the codec compares against. */
  datatype CodecSettings = CodecSettings(ManifestFileSign: uint32, ManifestFileVersion: string)

  /** The FileName that PackageBundle.ParseBundle(packageName, nameStyle) gives a bundle,
      or the error it throws. */
  type FileNamer = (string, int32, PackageBundle) -> Result<string>
}
