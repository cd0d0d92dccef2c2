/** The lookup dictionaries DeserializeFromBinary rebuilds after reading the tables:
    BundleDic (bundle name -> bundle), BundleDic2 (file name -> bundle) and
    AssetDic (asset path -> asset), each a fold over its table that fails on a repeated key. */
module ManifestIndex {
  import opened Results
  import opened Buffer
  import opened PackageModel

  ghost predicate DistinctAssetPaths(assets: seq<PackageAsset>) {
    forall i, j :: 0 <= i < j < |assets| ==> assets[i].AssetPath != assets[j].AssetPath
  }

  /** `dic` maps exactly the paths of `assets`, each to the asset that has it. */
  ghost predicate IsAssetIndex(dic: map<string, PackageAsset>, assets: seq<PackageAsset>) {
    && (forall p :: p in dic ==> exists i :: 0 <= i < |assets| && assets[i].AssetPath == p)
    && (forall i :: 0 <= i < |assets| ==> assets[i].AssetPath in dic && dic[assets[i].AssetPath] == assets[i])
  }

  /** Every bundle gets a file name, and no two bundles share a name or a file name. */
  ghost predicate BundleKeysUnique(bundles: seq<PackageBundle>, packageName: string, nameStyle: int32, namer: FileNamer) {
    && (forall i :: 0 <= i < |bundles| ==> namer(packageName, nameStyle, bundles[i]).Success?)
    && (forall i, j :: 0 <= i < j < |bundles| ==> bundles[i].BundleName != bundles[j].BundleName)
    && (forall i, j :: 0 <= i < j < |bundles| ==>
          namer(packageName, nameStyle, bundles[i]) != namer(packageName, nameStyle, bundles[j]))
  }

  /** `byName` maps exactly the bundle names of `bundles`, each to the bundle that has it. */
  ghost predicate IsNameIndex(byName: map<string, PackageBundle>, bundles: seq<PackageBundle>) {
    && (forall k :: k in byName ==> exists i :: 0 <= i < |bundles| && bundles[i].BundleName == k)
    && (forall i :: 0 <= i < |bundles| ==>
          bundles[i].BundleName in byName && byName[bundles[i].BundleName] == bundles[i])
  }

  /** `byFile` maps exactly the file names the namer gives `bundles`, each to its bundle. */
  ghost predicate IsFileIndex(byFile: map<string, PackageBundle>,
                              bundles: seq<PackageBundle>, packageName: string, nameStyle: int32, namer: FileNamer)
  {
    && (forall k :: k in byFile ==>
          exists i :: 0 <= i < |bundles| && namer(packageName, nameStyle, bundles[i]) == Success(k))
    && (forall i :: 0 <= i < |bundles| && namer(packageName, nameStyle, bundles[i]).Success? ==>
          namer(packageName, nameStyle, bundles[i]).value in byFile &&
          byFile[namer(packageName, nameStyle, bundles[i]).value] == bundles[i])
  }

  /** BundleDic and BundleDic2 index the bundle table by name and by file name. */
  ghost predicate IsBundleIndex(byName: map<string, PackageBundle>, byFile: map<string, PackageBundle>,
                                bundles: seq<PackageBundle>, packageName: string, nameStyle: int32, namer: FileNamer)
  {
    IsNameIndex(byName, bundles) && IsFileIndex(byFile, bundles, packageName, nameStyle, namer)
  }

  /** The AssetDic loop from `dic` on: each asset is added under its path, and a path
      already present fails. */
  function AddAssets(dic: map<string, PackageAsset>, assets: seq<PackageAsset>): Result<map<string, PackageAsset>>
    decreases |assets|
  {
    if assets == [] then Success(dic)
    else if assets[0].AssetPath in dic then Failure(DuplicatePath(assets[0].AssetPath))
    else AddAssets(dic[assets[0].AssetPath := assets[0]], assets[1..])
  }

  /** The BundleDic/BundleDic2 loop from (byName, byFile) on: each bundle is named by
      ParseBundle, then added under its bundle name and under its file name; a key already
      present fails. */
  function AddBundles(byName: map<string, PackageBundle>, byFile: map<string, PackageBundle>,
                      bundles: seq<PackageBundle>, packageName: string, nameStyle: int32, namer: FileNamer)
    : Result<(map<string, PackageBundle>, map<string, PackageBundle>)>
    decreases |bundles|
  {
    if bundles == [] then Success((byName, byFile))
    else
      var b := bundles[0];
      var fileName :- namer(packageName, nameStyle, b);
      if b.BundleName in byName then Failure(DuplicateBundleName(b.BundleName))
      else if fileName in byFile then Failure(DuplicateFileName(fileName))
      else AddBundles(byName[b.BundleName := b], byFile[fileName := b], bundles[1..], packageName, nameStyle, namer)
  }

  /** The asset fold succeeds exactly when the paths are distinct and not yet keys of `dic`. */
  lemma {:induction false} AddAssetsSucceeds(dic: map<string, PackageAsset>, assets: seq<PackageAsset>)
    ensures AddAssets(dic, assets).Success? <==>
      DistinctAssetPaths(assets) && forall i :: 0 <= i < |assets| ==> assets[i].AssetPath !in dic
    decreases |assets|
  {
    if assets != [] {
      var a, rest := assets[0], assets[1..];
      assert forall i :: 0 < i < |assets| ==> assets[i] == rest[i - 1];
      if a.AssetPath !in dic {
        AddAssetsSucceeds(dic[a.AssetPath := a], rest);
      }
    }
  }

  /** A successful asset fold's keys are the old keys and the asset paths. */
  lemma {:induction false} AddAssetsKeys(dic: map<string, PackageAsset>, assets: seq<PackageAsset>)
    requires AddAssets(dic, assets).Success?
    ensures forall p :: p in AddAssets(dic, assets).value <==>
      (p in dic || exists i :: 0 <= i < |assets| && assets[i].AssetPath == p)
    decreases |assets|
  {
    if assets != [] {
      var a, rest := assets[0], assets[1..];
      var dic' := dic[a.AssetPath := a];
      AddAssetsKeys(dic', rest);
      var d := AddAssets(dic, assets).value;
      forall p | p in d ensures p in dic || exists i :: 0 <= i < |assets| && assets[i].AssetPath == p {
        if p !in dic' {
          var i :| 0 <= i < |rest| && rest[i].AssetPath == p;
          assert assets[i + 1].AssetPath == p;
        }
      }
      forall p | p in dic || exists i :: 0 <= i < |assets| && assets[i].AssetPath == p ensures p in d {
        if p !in dic' {
          var i :| 0 <= i < |assets| && assets[i].AssetPath == p;
          assert rest[i - 1].AssetPath == p;
        }
      }
    }
  }

  /** A successful asset fold keeps the old entries, files each asset under its path and
      adds one entry per asset. */
  lemma {:induction false} AddAssetsValues(dic: map<string, PackageAsset>, assets: seq<PackageAsset>)
    requires AddAssets(dic, assets).Success?
    ensures var d := AddAssets(dic, assets).value;
      && (forall p :: p in dic ==> p in d && d[p] == dic[p])
      && (forall i :: 0 <= i < |assets| ==> assets[i].AssetPath in d && d[assets[i].AssetPath] == assets[i])
      && |d| == |dic| + |assets|
    decreases |assets|
  {
    if assets != [] {
      var a, rest := assets[0], assets[1..];
      assert forall i :: 0 < i < |assets| ==> assets[i] == rest[i - 1];
      AddAssetsValues(dic[a.AssetPath := a], rest);
    }
  }

  /** No bundle name is a key of `byName`, and no file name a key of `byFile`. */
  ghost predicate KeysNew(byName: map<string, PackageBundle>, byFile: map<string, PackageBundle>,
                          bundles: seq<PackageBundle>, packageName: string, nameStyle: int32, namer: FileNamer)
  {
    && (forall i :: 0 <= i < |bundles| ==> bundles[i].BundleName !in byName)
    && (forall i :: 0 <= i < |bundles| && namer(packageName, nameStyle, bundles[i]).Success? ==>
          namer(packageName, nameStyle, bundles[i]).value !in byFile)
  }

  /** The bundle fold succeeds exactly when every bundle gets a file name and the names and
      file names are distinct and new. */
  lemma AddBundlesSucceeds(byName: map<string, PackageBundle>, byFile: map<string, PackageBundle>,
                           bundles: seq<PackageBundle>, packageName: string, nameStyle: int32, namer: FileNamer)
    ensures AddBundles(byName, byFile, bundles, packageName, nameStyle, namer).Success? <==>
      BundleKeysUnique(bundles, packageName, nameStyle, namer) && KeysNew(byName, byFile, bundles, packageName, nameStyle, namer)
  {
    if AddBundles(byName, byFile, bundles, packageName, nameStyle, namer).Success? {
      AddBundlesSuccessKeys(byName, byFile, bundles, packageName, nameStyle, namer);
    } else if BundleKeysUnique(bundles, packageName, nameStyle, namer) {
      AddBundlesFailureKeys(byName, byFile, bundles, packageName, nameStyle, namer);
    }
  }

  /** A successful bundle fold met only new, distinct names and file names. */
  lemma {:induction false} AddBundlesSuccessKeys(byName: map<string, PackageBundle>, byFile: map<string, PackageBundle>,
                                                 bundles: seq<PackageBundle>, packageName: string, nameStyle: int32, namer: FileNamer)
    requires AddBundles(byName, byFile, bundles, packageName, nameStyle, namer).Success?
    ensures BundleKeysUnique(bundles, packageName, nameStyle, namer)
    ensures KeysNew(byName, byFile, bundles, packageName, nameStyle, namer)
    decreases |bundles|
  {
    if bundles != [] {
      var b, rest := bundles[0], bundles[1..];
      assert forall i :: 0 < i < |bundles| ==> bundles[i] == rest[i - 1];
      var named := namer(packageName, nameStyle, b);
      AddBundlesSuccessKeys(byName[b.BundleName := b], byFile[named.value := b], rest, packageName, nameStyle, namer);
    }
  }

  /** A failed bundle fold over bundles with distinct names and file names met a key that
      was already present. */
  lemma {:induction false} AddBundlesFailureKeys(byName: map<string, PackageBundle>, byFile: map<string, PackageBundle>,
                                                 bundles: seq<PackageBundle>, packageName: string, nameStyle: int32, namer: FileNamer)
    requires AddBundles(byName, byFile, bundles, packageName, nameStyle, namer).Failure?
    requires BundleKeysUnique(bundles, packageName, nameStyle, namer)
    ensures !KeysNew(byName, byFile, bundles, packageName, nameStyle, namer)
    decreases |bundles|
  {
    var b, rest := bundles[0], bundles[1..];
    assert forall i :: 0 < i < |bundles| ==> bundles[i] == rest[i - 1];
    var named := namer(packageName, nameStyle, b);
    if b.BundleName !in byName && named.value !in byFile {
      AddBundlesFailureKeys(byName[b.BundleName := b], byFile[named.value := b], rest, packageName, nameStyle, namer);
    }
  }

  /** A successful bundle fold's `byName` keys are the old keys and the bundle names. */
  lemma {:induction false} AddBundlesNameKeys(byName: map<string, PackageBundle>, byFile: map<string, PackageBundle>,
                                              bundles: seq<PackageBundle>, packageName: string, nameStyle: int32, namer: FileNamer)
    requires AddBundles(byName, byFile, bundles, packageName, nameStyle, namer).Success?
    ensures forall k :: k in AddBundles(byName, byFile, bundles, packageName, nameStyle, namer).value.0 <==>
      (k in byName || exists i :: 0 <= i < |bundles| && bundles[i].BundleName == k)
    decreases |bundles|
  {
    if bundles != [] {
      var b, rest := bundles[0], bundles[1..];
      var named := namer(packageName, nameStyle, b);
      var byName' := byName[b.BundleName := b];
      AddBundlesNameKeys(byName', byFile[named.value := b], rest, packageName, nameStyle, namer);
      var n := AddBundles(byName, byFile, bundles, packageName, nameStyle, namer).value.0;
      forall k | k in n ensures k in byName || exists i :: 0 <= i < |bundles| && bundles[i].BundleName == k {
        if k !in byName' {
          var i :| 0 <= i < |rest| && rest[i].BundleName == k;
          assert bundles[i + 1].BundleName == k;
        }
      }
      forall k | k in byName || exists i :: 0 <= i < |bundles| && bundles[i].BundleName == k ensures k in n {
        if k !in byName' {
          var i :| 0 <= i < |bundles| && bundles[i].BundleName == k;
          assert rest[i - 1].BundleName == k;
        }
      }
    }
  }

  /** A successful bundle fold keeps the old `byName` entries, files each bundle under its
      name and adds one entry per bundle. */
  lemma {:induction false} AddBundlesNameValues(byName: map<string, PackageBundle>, byFile: map<string, PackageBundle>,
                                                bundles: seq<PackageBundle>, packageName: string, nameStyle: int32, namer: FileNamer)
    requires AddBundles(byName, byFile, bundles, packageName, nameStyle, namer).Success?
    ensures var n := AddBundles(byName, byFile, bundles, packageName, nameStyle, namer).value.0;
      && (forall k :: k in byName ==> k in n && n[k] == byName[k])
      && (forall i :: 0 <= i < |bundles| ==> bundles[i].BundleName in n && n[bundles[i].BundleName] == bundles[i])
      && |n| == |byName| + |bundles|
    decreases |bundles|
  {
    if bundles != [] {
      var b, rest := bundles[0], bundles[1..];
      assert forall i :: 0 < i < |bundles| ==> bundles[i] == rest[i - 1];
      var named := namer(packageName, nameStyle, b);
      AddBundlesNameValues(byName[b.BundleName := b], byFile[named.value := b], rest, packageName, nameStyle, namer);
    }
  }

  /** A successful bundle fold keeps the old `byFile` entries and files each bundle under its
      file name. */
  lemma {:induction false} AddBundlesByFile(byName: map<string, PackageBundle>, byFile: map<string, PackageBundle>,
                                            bundles: seq<PackageBundle>, packageName: string, nameStyle: int32, namer: FileNamer)
    requires AddBundles(byName, byFile, bundles, packageName, nameStyle, namer).Success?
    ensures var f := AddBundles(byName, byFile, bundles, packageName, nameStyle, namer).value.1;
      && (forall k :: k in byFile ==> k in f && f[k] == byFile[k])
      && (forall i :: 0 <= i < |bundles| ==>
            namer(packageName, nameStyle, bundles[i]).Success? &&
            namer(packageName, nameStyle, bundles[i]).value in f &&
            f[namer(packageName, nameStyle, bundles[i]).value] == bundles[i])
    decreases |bundles|
  {
    if bundles != [] {
      var b, rest := bundles[0], bundles[1..];
      assert forall i :: 0 < i < |bundles| ==> bundles[i] == rest[i - 1];
      var named := namer(packageName, nameStyle, b);
      AddBundlesByFile(byName[b.BundleName := b], byFile[named.value := b], rest, packageName, nameStyle, namer);
    }
  }

  /** A successful bundle fold adds one `byFile` entry per bundle. */
  lemma {:induction false} AddBundlesFileCount(byName: map<string, PackageBundle>, byFile: map<string, PackageBundle>,
                                               bundles: seq<PackageBundle>, packageName: string, nameStyle: int32, namer: FileNamer)
    requires AddBundles(byName, byFile, bundles, packageName, nameStyle, namer).Success?
    ensures |AddBundles(byName, byFile, bundles, packageName, nameStyle, namer).value.1| == |byFile| + |bundles|
    decreases |bundles|
  {
    if bundles != [] {
      var named := namer(packageName, nameStyle, bundles[0]);
      AddBundlesFileCount(byName[bundles[0].BundleName := bundles[0]], byFile[named.value := bundles[0]], bundles[1..],
                          packageName, nameStyle, namer);
    }
  }

  /** Every key of a successful bundle fold's `byFile` was already there or is some bundle's file name. */
  lemma {:induction false} AddBundlesFileKeys(byName: map<string, PackageBundle>, byFile: map<string, PackageBundle>,
                                              bundles: seq<PackageBundle>, packageName: string, nameStyle: int32, namer: FileNamer)
    requires AddBundles(byName, byFile, bundles, packageName, nameStyle, namer).Success?
    ensures forall k :: k in AddBundles(byName, byFile, bundles, packageName, nameStyle, namer).value.1 ==>
      k in byFile || exists i :: 0 <= i < |bundles| && namer(packageName, nameStyle, bundles[i]) == Success(k)
    decreases |bundles|
  {
    if bundles != [] {
      var b, rest := bundles[0], bundles[1..];
      var named := namer(packageName, nameStyle, b);
      var byFile' := byFile[named.value := b];
      AddBundlesFileKeys(byName[b.BundleName := b], byFile', rest, packageName, nameStyle, namer);
      var f := AddBundles(byName, byFile, bundles, packageName, nameStyle, namer).value.1;
      forall k | k in f
        ensures k in byFile || exists i :: 0 <= i < |bundles| && namer(packageName, nameStyle, bundles[i]) == Success(k)
      {
        if k !in byFile' {
          var i :| 0 <= i < |rest| && namer(packageName, nameStyle, rest[i]) == Success(k);
          assert bundles[i + 1] == rest[i];
        } else if k !in byFile {
          assert namer(packageName, nameStyle, bundles[0]) == Success(k);
        }
      }
    }
  }

  /** AssetDic as DeserializeFromBinary builds it: it exists exactly when the asset paths
      are distinct, and then it is the index of the table, one entry per asset. */
  lemma {:induction false} BuildAssetDicSpec(assets: seq<PackageAsset>)
    ensures AddAssets(map[], assets).Success? <==> DistinctAssetPaths(assets)
    ensures AddAssets(map[], assets).Success? ==>
      IsAssetIndex(AddAssets(map[], assets).value, assets) && |AddAssets(map[], assets).value| == |assets|
  {
    AddAssetsSucceeds(map[], assets);
    if AddAssets(map[], assets).Success? {
      AddAssetsKeys(map[], assets);
      AddAssetsValues(map[], assets);
    }
  }

  /** The AssetDic loop fails only on a repeated path: its one error is `DuplicatePath`. */
  lemma {:induction false} AddAssetsFailsWithPath(dic: map<string, PackageAsset>, assets: seq<PackageAsset>)
    ensures AddAssets(dic, assets).Failure? ==> AddAssets(dic, assets).error.DuplicatePath?
    decreases |assets|
  {
    if assets != [] && assets[0].AssetPath !in dic {
      AddAssetsFailsWithPath(dic[assets[0].AssetPath := assets[0]], assets[1..]);
    }
  }

  /** BundleDic as DeserializeFromBinary builds it indexes the table by name, one entry per bundle. */
  lemma {:induction false} BuildNameDicSpec(bundles: seq<PackageBundle>, packageName: string, nameStyle: int32, namer: FileNamer)
    requires AddBundles(map[], map[], bundles, packageName, nameStyle, namer).Success?
    ensures var n := AddBundles(map[], map[], bundles, packageName, nameStyle, namer).value.0;
      IsNameIndex(n, bundles) && |n| == |bundles|
  {
    AddBundlesNameKeys(map[], map[], bundles, packageName, nameStyle, namer);
    AddBundlesNameValues(map[], map[], bundles, packageName, nameStyle, namer);
  }

  /** BundleDic2 as DeserializeFromBinary builds it indexes the table by file name, one entry
      per bundle. */
  lemma {:induction false} BuildFileDicSpec(bundles: seq<PackageBundle>, packageName: string, nameStyle: int32, namer: FileNamer)
    requires AddBundles(map[], map[], bundles, packageName, nameStyle, namer).Success?
    ensures var f := AddBundles(map[], map[], bundles, packageName, nameStyle, namer).value.1;
      IsFileIndex(f, bundles, packageName, nameStyle, namer) && |f| == |bundles|
  {
    AddBundlesByFile(map[], map[], bundles, packageName, nameStyle, namer);
    AddBundlesFileCount(map[], map[], bundles, packageName, nameStyle, namer);
    AddBundlesFileKeys(map[], map[], bundles, packageName, nameStyle, namer);
  }

  /** BundleDic and BundleDic2 as DeserializeFromBinary builds them: they exist exactly when
      every bundle is named and names and file names are distinct, and then they index the
      table, one entry per bundle each. */
  lemma {:induction false} BuildBundleDicsSpec(bundles: seq<PackageBundle>, packageName: string, nameStyle: int32, namer: FileNamer)
    ensures AddBundles(map[], map[], bundles, packageName, nameStyle, namer).Success? <==>
      BundleKeysUnique(bundles, packageName, nameStyle, namer)
    ensures AddBundles(map[], map[], bundles, packageName, nameStyle, namer).Success? ==>
      var (n, f) := AddBundles(map[], map[], bundles, packageName, nameStyle, namer).value;
      IsBundleIndex(n, f, bundles, packageName, nameStyle, namer) && |n| == |bundles| && |f| == |bundles|
  {
    AddBundlesSucceeds(map[], map[], bundles, packageName, nameStyle, namer);
    if AddBundles(map[], map[], bundles, packageName, nameStyle, namer).Success? {
      BuildNameDicSpec(bundles, packageName, nameStyle, namer);
      BuildFileDicSpec(bundles, packageName, nameStyle, namer);
    }
  }

  /** An asset table has at most one index. */
  lemma {:induction false} AssetIndexUnique(d1: map<string, PackageAsset>, d2: map<string, PackageAsset>, assets: seq<PackageAsset>)
    requires IsAssetIndex(d1, assets) && IsAssetIndex(d2, assets)
    ensures d1 == d2
  {
    forall p | p in d1 ensures p in d2 && d1[p] == d2[p] {
      var i :| 0 <= i < |assets| && assets[i].AssetPath == p;
    }
    forall p | p in d2 ensures p in d1 {
      var i :| 0 <= i < |assets| && assets[i].AssetPath == p;
    }
  }

  /** A bundle table has at most one name index. */
  lemma {:induction false} NameIndexUnique(n1: map<string, PackageBundle>, n2: map<string, PackageBundle>, bundles: seq<PackageBundle>)
    requires IsNameIndex(n1, bundles) && IsNameIndex(n2, bundles)
    ensures n1 == n2
  {
    forall k | k in n1 ensures k in n2 && n1[k] == n2[k] {
      var i :| 0 <= i < |bundles| && bundles[i].BundleName == k;
    }
    forall k | k in n2 ensures k in n1 {
      var i :| 0 <= i < |bundles| && bundles[i].BundleName == k;
    }
  }

  /** A bundle table has at most one file-name index. */
  lemma {:induction false} FileIndexUnique(f1: map<string, PackageBundle>, f2: map<string, PackageBundle>,
                        bundles: seq<PackageBundle>, packageName: string, nameStyle: int32, namer: FileNamer)
    requires IsFileIndex(f1, bundles, packageName, nameStyle, namer)
    requires IsFileIndex(f2, bundles, packageName, nameStyle, namer)
    ensures f1 == f2
  {
    forall k | k in f1 ensures k in f2 && f1[k] == f2[k] {
      var i :| 0 <= i < |bundles| && namer(packageName, nameStyle, bundles[i]) == Success(k);
    }
    forall k | k in f2 ensures k in f1 {
      var i :| 0 <= i < |bundles| && namer(packageName, nameStyle, bundles[i]) == Success(k);
    }
  }

  /** A bundle table has at most one pair of indexes. */
  lemma {:induction false} BundleIndexUnique(n1: map<string, PackageBundle>, f1: map<string, PackageBundle>,
                          n2: map<string, PackageBundle>, f2: map<string, PackageBundle>,
                          bundles: seq<PackageBundle>, packageName: string, nameStyle: int32, namer: FileNamer)
    requires IsBundleIndex(n1, f1, bundles, packageName, nameStyle, namer)
    requires IsBundleIndex(n2, f2, bundles, packageName, nameStyle, namer)
    ensures n1 == n2 && f1 == f2
  {
    NameIndexUnique(n1, n2, bundles);
    FileIndexUnique(f1, f2, bundles, packageName, nameStyle, namer);
  }
}
