/** BuildBundleInfo: one bundle being assembled by the AssetBundle builder, holding the assets
    packed into it, and what the build pipeline asks of it (tags, paths, the Unity build entry). */
module BuildBundle {
  import opened Results
  import opened Sequences

  /** The part of a BuildAssetInfo this class reads. */
  datatype BuildAssetInfo = BuildAssetInfo(
    AssetPath: string,
    IsRawAsset: bool,
    IsCollectAsset: bool,
    AssetTags: seq<string>)

  /** UnityEditor.AssetBundleBuild: the entry handed to the build pipeline for one bundle. */
  datatype AssetBundleBuild = AssetBundleBuild(
    assetBundleName: string,
    assetBundleVariant: string,
    assetNames: seq<string>)

  // ---------------------------------------------------------------- specification functions

  /** No two assets share a path. */
  ghost predicate DistinctPaths(assets: seq<BuildAssetInfo>) {
    forall i, j :: 0 <= i < j < |assets| ==> assets[i].AssetPath != assets[j].AssetPath
  }

  ghost predicate NoDuplicates(s: seq<string>) {
    forall i, j :: 0 <= i < j < |s| ==> s[i] != s[j]
  }

  /** The asset paths, in packing order. */
  function Paths(assets: seq<BuildAssetInfo>): (paths: seq<string>)
    ensures |paths| == |assets|
    ensures forall i :: 0 <= i < |assets| ==> paths[i] == assets[i].AssetPath
  {
    if assets == [] then [] else [assets[0].AssetPath] + Paths(assets[1..])
  }

  /** Every tag of every asset, asset by asset, repeats included. */
  function AllTags(assets: seq<BuildAssetInfo>): (tags: seq<string>)
    ensures forall t :: t in tags <==> exists i :: 0 <= i < |assets| && t in assets[i].AssetTags
    decreases |assets|
  {
    if assets == [] then []
    else
      var init := assets[..|assets| - 1];
      var tags := AllTags(init) + assets[|assets| - 1].AssetTags;
      assert forall i :: 0 <= i < |init| ==> init[i] == assets[i];
      tags
  }

  /** The position of the first `x` in `s`, or |s| when there is none. */
  function FirstIndex(s: seq<string>, x: string): (r: nat)
    ensures r <= |s|
    ensures r < |s| ==> s[r] == x && x !in s[..r]
    ensures r == |s| ==> x !in s
  {
    if s == [] then 0
    else if s[0] == x then 0
    else
      var r := 1 + FirstIndex(s[1..], x);
      assert s[..r] == [s[0]] + s[1..][..r - 1];
      r
  }

  /** `s` with every repeat dropped, keeping each value where it first occurs: the loop
      "add the tag if the list does not contain it yet" run over `s`. */
  function Dedup(s: seq<string>): (r: seq<string>)
    ensures forall x :: x in r <==> x in s
    ensures NoDuplicates(r)
    decreases |s|
  {
    if s == [] then []
    else
      var init := Dedup(s[..|s| - 1]);
      var x := s[|s| - 1];
      assert s == s[..|s| - 1] + [x];
      if x in init then init else init + [x]
  }

  /** The assets marked as collected, in packing order. */
  function CollectAssets(assets: seq<BuildAssetInfo>): (r: seq<BuildAssetInfo>)
    ensures forall a :: a in r <==> a in assets && a.IsCollectAsset
    ensures |r| <= |assets|
  {
    if assets == [] then []
    else if assets[0].IsCollectAsset then [assets[0]] + CollectAssets(assets[1..])
    else CollectAssets(assets[1..])
  }

  // ---------------------------------------------------------------- lemmas about them

  lemma FirstIndexAppend(s: seq<string>, x: string, y: string)
    ensures y in s ==> FirstIndex(s + [x], y) == FirstIndex(s, y)
    ensures y !in s && y == x ==> FirstIndex(s + [x], y) == |s|
  {
    if y in s {
      var j := FirstIndex(s, y);
      assert (s + [x])[j] == y;
      assert (s + [x])[..j] == s[..j];
    } else if y == x {
      assert (s + [x])[|s|] == y;
      assert (s + [x])[..|s|] == s;
    }
  }

  /** Dedup lists the values in the order of their first occurrence in `s`. */
  lemma {:induction false} DedupFirstOccurrenceOrder(s: seq<string>)
    ensures forall i, j :: 0 <= i < j < |Dedup(s)| ==> FirstIndex(s, Dedup(s)[i]) < FirstIndex(s, Dedup(s)[j])
    decreases |s|
  {
    if s != [] {
      var init, x := s[..|s| - 1], s[|s| - 1];
      assert s == init + [x];
      DedupFirstOccurrenceOrder(init);
      var d := Dedup(init);
      var r := Dedup(s);
      assert r == if x in d then d else d + [x];
      forall i, j | 0 <= i < j < |r| ensures FirstIndex(s, r[i]) < FirstIndex(s, r[j]) {
        assert r[i] == d[i] && r[i] in init;
        FirstIndexAppend(init, x, r[i]);
        if j < |d| {
          assert r[j] == d[j] && r[j] in init;
          FirstIndexAppend(init, x, r[j]);
          assert FirstIndex(init, d[i]) < FirstIndex(init, d[j]);
        } else {
          assert r[j] == x && x !in init;
          FirstIndexAppend(init, x, x);
        }
      }
    }
  }

  /** Collecting distributes over concatenation: the collected assets of a list are those
      of its front followed by those of its back, so the filter keeps packing order. */
  lemma {:induction false} CollectAssetsAppend(front: seq<BuildAssetInfo>, back: seq<BuildAssetInfo>)
    ensures CollectAssets(front + back) == CollectAssets(front) + CollectAssets(back)
    decreases |front|
  {
    if front != [] {
      assert (front + back)[0] == front[0];
      assert (front + back)[1..] == front[1..] + back;
      CollectAssetsAppend(front[1..], back);
      if front[0].IsCollectAsset {
        AppendAssoc([front[0]], CollectAssets(front[1..]), CollectAssets(back));
      }
    } else {
      assert front + back == back;
    }
  }

  /** The tags of a bundle after one more asset: the earlier tags, then its own. */
  lemma AllTagsSnoc(assets: seq<BuildAssetInfo>, i: nat)
    requires i < |assets|
    ensures AllTags(assets[..i + 1]) == AllTags(assets[..i]) + assets[i].AssetTags
  {
    assert assets[..i + 1][..i] == assets[..i];
  }

  /** One more tag through the dedup loop: added only when it is new. */
  lemma DedupSnoc(s: seq<string>, x: string)
    ensures Dedup(s + [x]) == if x in Dedup(s) then Dedup(s) else Dedup(s) + [x]
  {
    assert (s + [x])[..|s|] == s;
  }

  // ---------------------------------------------------------------- the class

  class BuildBundleInfo {
    /** The full bundle name, fixed at construction. */
    const BundleName: string
    /** The assets built into this bundle, in packing order. */
    var BuildinAssets: seq<BuildAssetInfo>

    /** PackAsset keeps the asset paths distinct. */
    ghost predicate Valid()
      reads this
    {
      DistinctPaths(BuildinAssets)
    }

    constructor (bundleName: string)
      ensures BundleName == bundleName && BuildinAssets == []
      ensures Valid()
    {
      BundleName := bundleName;
      BuildinAssets := [];
    }

    /** Whether an asset with this path is already packed. */
    method IsContainsAsset(assetPath: string) returns (contains: bool)
      ensures contains <==> exists i :: 0 <= i < |BuildinAssets| && BuildinAssets[i].AssetPath == assetPath
    {
      for i := 0 to |BuildinAssets|
        invariant forall k :: 0 <= k < i ==> BuildinAssets[k].AssetPath != assetPath
      {
        if BuildinAssets[i].AssetPath == assetPath {
          return true;
        }
      }
      return false;
    }

    /** Packs an asset; an asset whose path is already packed is refused and nothing changes. */
    method PackAsset(assetInfo: BuildAssetInfo) returns (outcome: Outcome)
      modifies this
      ensures outcome.Pass? <==> assetInfo.AssetPath !in Paths(old(BuildinAssets))
      ensures outcome.Pass? ==> BuildinAssets == old(BuildinAssets) + [assetInfo]
      ensures outcome.Fail? ==> BuildinAssets == old(BuildinAssets) && outcome.error == DuplicateAsset(assetInfo.AssetPath)
      ensures old(Valid()) ==> Valid()
    {
      var contains := IsContainsAsset(assetInfo.AssetPath);
      if contains {
        return Fail(DuplicateAsset(assetInfo.AssetPath));
      }
      BuildinAssets := BuildinAssets + [assetInfo];
      outcome := Pass;
    }

    /** The IsRawFile property: whether any packed asset is a raw asset. */
    method IsRawFile() returns (raw: bool)
      ensures raw <==> exists i :: 0 <= i < |BuildinAssets| && BuildinAssets[i].IsRawAsset
    {
      for i := 0 to |BuildinAssets|
        invariant forall k :: 0 <= k < i ==> !BuildinAssets[k].IsRawAsset
      {
        if BuildinAssets[i].IsRawAsset {
          return true;
        }
      }
      return false;
    }

    /** The file extension the bundle is built with: '.' and the raw-file variant when it
        holds a raw asset, '.' and the AssetBundle variant otherwise. */
    method GetAppendExtension(rawFileVariant: string, assetBundleFileVariant: string) returns (ext: string)
      ensures (exists i :: 0 <= i < |BuildinAssets| && BuildinAssets[i].IsRawAsset) ==> ext == "." + rawFileVariant
      ensures (forall i :: 0 <= i < |BuildinAssets| ==> !BuildinAssets[i].IsRawAsset) ==> ext == "." + assetBundleFileVariant
    {
      var raw := IsRawFile();
      if raw {
        ext := "." + rawFileVariant;
      } else {
        ext := "." + assetBundleFileVariant;
      }
    }

    /** The tags of all packed assets, each once, in the order they are first met. */
    method GetAssetTags() returns (result: seq<string>)
      ensures result == Dedup(AllTags(BuildinAssets))
    {
      result := [];
      for i := 0 to |BuildinAssets|
        invariant result == Dedup(AllTags(BuildinAssets[..i]))
      {
        var assetTags := BuildinAssets[i].AssetTags;
        ghost var earlier := AllTags(BuildinAssets[..i]);
        AllTagsSnoc(BuildinAssets, i);
        assert earlier + assetTags[..0] == earlier;
        for j := 0 to |assetTags|
          invariant result == Dedup(earlier + assetTags[..j])
        {
          var assetTag := assetTags[j];
          DedupSnoc(earlier + assetTags[..j], assetTag);
          AppendPrefixSnoc(earlier, assetTags, j);
          if assetTag !in result {
            result := result + [assetTag];
          }
        }
        assert assetTags[..|assetTags|] == assetTags;
      }
      assert BuildinAssets[..|BuildinAssets|] == BuildinAssets;
    }

    /** The paths of the packed assets, in packing order. */
    function GetBuildinAssetPaths(): (paths: seq<string>)
      reads this
      ensures |paths| == |BuildinAssets|
      ensures forall i :: 0 <= i < |BuildinAssets| ==> paths[i] == BuildinAssets[i].AssetPath
    {
      Paths(BuildinAssets)
    }

    /** The packed assets that were collected rather than pulled in as dependencies. */
    function GetCollectAssetInfos(): (collected: seq<BuildAssetInfo>)
      reads this
      ensures forall a :: a in collected <==> a in BuildinAssets && a.IsCollectAsset
      ensures |collected| <= |BuildinAssets|
    {
      CollectAssets(BuildinAssets)
    }

    /** The build pipeline entry: the bundle name, no variant, the packed asset paths. */
    function CreatePipelineBuild(): (build: AssetBundleBuild)
      reads this
      ensures build.assetBundleName == BundleName && build.assetBundleVariant == ""
      ensures build.assetNames == GetBuildinAssetPaths()
      ensures Valid() ==> NoDuplicates(build.assetNames)
    {
      AssetBundleBuild(BundleName, "", GetBuildinAssetPaths())
    }
  }

  /** The tag list GetAssetTags returns holds every tag of every packed asset and nothing
      else, each once, in the order the tags are first met asset by asset. */
  lemma AssetTagsSpec(assets: seq<BuildAssetInfo>)
    ensures var tags := Dedup(AllTags(assets));
      && (forall t :: t in tags <==> exists i :: 0 <= i < |assets| && t in assets[i].AssetTags)
      && NoDuplicates(tags)
      && (forall i, j :: 0 <= i < j < |tags| ==> FirstIndex(AllTags(assets), tags[i]) < FirstIndex(AllTags(assets), tags[j]))
  {
    DedupFirstOccurrenceOrder(AllTags(assets));
  }
}
