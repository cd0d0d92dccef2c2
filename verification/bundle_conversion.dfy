/** ManifestTools.ConvertToUnpackInfo, ConvertToImportInfo and ConvertToUnpackInfos: the
    BundleInfo a bundle is loaded through when it is unpacked from the streaming assets or
    imported from a local file. */
module BundleConversion {
  import opened PackageModel

  /** BundleInfo.ELoadMode, the two modes these conversions use. */
  datatype LoadMode = None | LoadFromStreaming

  /** A BundleInfo: the bundle, how it is loaded, and its main and fallback remote URLs. */
  datatype BundleInfo = BundleInfo(
    Bundle: PackageBundle,
    LoadMode: LoadMode,
    RemoteMainURL: string,
    RemoteFallbackURL: string)

  /** The streaming-assets path of a bundle (PackageBundle.StreamingFilePath). */
  type StreamingPath = PackageBundle -> string
  /** PersistentTools.ConvertToWWWPath. */
  type WWWPath = string -> string

  /** An unpack info: loaded from the streaming assets, whose WWW path serves as both the main
      and the fallback remote URL. */
  function ConvertToUnpackInfo(packageBundle: PackageBundle, streamingPath: StreamingPath, toWWW: WWWPath)
    : (info: BundleInfo)
    ensures info.Bundle == packageBundle && info.LoadMode == LoadFromStreaming
    ensures info.RemoteMainURL == info.RemoteFallbackURL == toWWW(streamingPath(packageBundle))
  {
    var streamingURL := toWWW(streamingPath(packageBundle));
    BundleInfo(packageBundle, LoadFromStreaming, streamingURL, streamingURL)
  }

  /** An import info: no special load mode, with the WWW path of the local file as both the
      main and the fallback remote URL. */
  function ConvertToImportInfo(packageBundle: PackageBundle, filePath: string, toWWW: WWWPath)
    : (info: BundleInfo)
    ensures info.Bundle == packageBundle && info.LoadMode == None
    ensures info.RemoteMainURL == info.RemoteFallbackURL == toWWW(filePath)
  {
    var persistentURL := toWWW(filePath);
    BundleInfo(packageBundle, None, persistentURL, persistentURL)
  }

  /** Unpacking a bundle is importing it from its streaming-assets path, loaded from the
      streaming assets instead of with no special mode. */
  lemma UnpackIsImportFromStreaming(packageBundle: PackageBundle, streamingPath: StreamingPath, toWWW: WWWPath)
    ensures ConvertToUnpackInfo(packageBundle, streamingPath, toWWW)
         == ConvertToImportInfo(packageBundle, streamingPath(packageBundle), toWWW).(LoadMode := LoadFromStreaming)
  {
  }

  /** ConvertToUnpackInfos: one unpack info per bundle, in the list's order. */
  method ConvertToUnpackInfos(unpackList: seq<PackageBundle>, streamingPath: StreamingPath, toWWW: WWWPath)
    returns (result: seq<BundleInfo>)
    ensures |result| == |unpackList|
    ensures forall i :: 0 <= i < |unpackList| ==> result[i] == ConvertToUnpackInfo(unpackList[i], streamingPath, toWWW)
  {
    result := [];
    for k := 0 to |unpackList|
      invariant |result| == k
      invariant forall i :: 0 <= i < k ==> result[i] == ConvertToUnpackInfo(unpackList[i], streamingPath, toWWW)
    {
      var bundleInfo := ConvertToUnpackInfo(unpackList[k], streamingPath, toWWW);
      result := result + [bundleInfo];
    }
  }

  /** The unpack infos carry exactly the listed bundles, each to be loaded from the streaming
      assets. */
  lemma UnpackInfosCoverList(unpackList: seq<PackageBundle>, streamingPath: StreamingPath, toWWW: WWWPath,
                             result: seq<BundleInfo>)
    requires |result| == |unpackList|
    requires forall i :: 0 <= i < |unpackList| ==> result[i] == ConvertToUnpackInfo(unpackList[i], streamingPath, toWWW)
    ensures forall b :: b in unpackList <==> exists info :: info in result && info.Bundle == b
    ensures forall info :: info in result ==> info.LoadMode == LoadFromStreaming
  {
    forall b | b in unpackList ensures exists info :: info in result && info.Bundle == b {
      var i :| 0 <= i < |unpackList| && unpackList[i] == b;
      assert result[i] in result;
    }
  }
}
