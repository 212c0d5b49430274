/** Image preloading and trial-to-image matching (preloader2.py).

    The file system and the presentation toolkit are abstracted: `glob.glob`
    is a function from a pattern to the list of paths it returns, the working
    directory captured at import time is the parameter `path`, a loaded
    `visual.ImageStim` is a record holding its `image` path, and an image
    component on screen is an object with one mutable `image` field. */
module Preloader {
  import opened PyStr

  datatype Option<T> = None | Some(value: T)
  {
    function GetOr(default: T): T
    {
      if Some? then value else default
    }
  }

  /** A preloaded image stimulus; only the path it was loaded from is kept. */
  datatype ImageStim = ImageStim(image: string)

  /** `glob.glob`: the paths that match a pattern. */
  type Glob = string -> seq<string>

  /** The text the source uses to mean "argument not supplied". */
  const NaN := "NaN"

  /** The images, in order, hold exactly the given paths. */
  predicate Shows(objs: seq<ImageStim>, paths: seq<string>)
  {
    |objs| == |paths| && forall i :: 0 <= i < |paths| ==> objs[i].image == paths[i]
  }

  /** Loading step shared by every preloader (preloader2.py:104-106): one image
      per path, in order, each with its `image` attribute set to that path. */
  method BuildImages(imgList: seq<string>) returns (imgObjList: seq<ImageStim>)
    ensures Shows(imgObjList, imgList)
  {
    imgObjList := [];
    for i := 0 to |imgList|
      invariant Shows(imgObjList, imgList[..i])
    {
      var img := imgList[i];
      imgObjList := imgObjList + [ImageStim(img)];
      imgObjList := imgObjList[|imgObjList| - 1 := imgObjList[|imgObjList| - 1].(image := img)];
    }
  }

  // ---------------------------------------------------------------------
  // folderLister

  /** Every space-separated piece of every string, in order. */
  function Tokens(tasks: seq<string>): seq<string>
  {
    if tasks == [] then []
    else Tokens(tasks[..|tasks| - 1]) + Split(tasks[|tasks| - 1], ' ')
  }

  /** A token comes from splitting one of the strings, and every piece of
      every string is a token. */
  lemma {:induction false} TokensOf(tasks: seq<string>, t: string)
    ensures t in Tokens(tasks) <==> exists k :: 0 <= k < |tasks| && t in Split(tasks[k], ' ')
  {
    if tasks != [] {
      var n := |tasks| - 1;
      var init, pieces := tasks[..n], Split(tasks[n], ' ');
      TokensOf(init, t);
      assert Tokens(tasks) == Tokens(init) + pieces;
      if t in Tokens(init) {
        var k :| 0 <= k < n && t in Split(init[k], ' ');
        assert init[k] == tasks[k];
      }
      if exists k :: 0 <= k < |tasks| && t in Split(tasks[k], ' ') {
        var k :| 0 <= k < |tasks| && t in Split(tasks[k], ' ');
        if k < n {
          assert init[k] == tasks[k];
        }
      }
    }
  }

  /** The inner loop of folderLister: append each folder name not listed yet. */
  method AppendNew(loadList: seq<string>, folders: seq<string>, ghost seen: seq<string>)
    returns (extended: seq<string>)
    requires loadList == Dedup(seen)
    ensures extended == Dedup(seen + folders)
  {
    extended := loadList;
    assert seen + folders[..0] == seen;
    for j := 0 to |folders|
      invariant extended == Dedup(seen + folders[..j])
    {
      var fold := folders[j];
      AppendStep(seen, folders, j);
      if fold !in extended {
        extended := extended + [fold];
      }
    }
    assert folders[..|folders|] == folders;
  }

  /** One step of `AppendNew`'s loop, on the specification side. */
  lemma AppendStep(seen: seq<string>, folders: seq<string>, j: int)
    requires 0 <= j < |folders|
    ensures Dedup(seen + folders[..j + 1]) ==
      var d := Dedup(seen + folders[..j]);
      if folders[j] in d then d else d + [folders[j]]
  {
    assert seen + folders[..j + 1] == (seen + folders[..j]) + [folders[j]];
    DedupSnoc(seen + folders[..j], folders[j]);
  }

  /** `folderLister(taskStrList)`: the folder names typed in, each once, in
      the order they first appear. */
  method FolderLister(taskStrList: seq<string>) returns (loadList: seq<string>)
    ensures loadList == Dedup(Tokens(taskStrList))
    ensures NoDups(loadList)
    ensures forall t :: t in loadList <==> t in Tokens(taskStrList)
  {
    loadList := [];
    for i := 0 to |taskStrList|
      invariant loadList == Dedup(Tokens(taskStrList[..i]))
    {
      var folders := Split(taskStrList[i], ' ');
      loadList := AppendNew(loadList, folders, Tokens(taskStrList[..i]));
      assert taskStrList[..i + 1][..i] == taskStrList[..i];
    }
    assert taskStrList[..|taskStrList|] == taskStrList;
    DedupSameElements(Tokens(taskStrList));
  }

  // ---------------------------------------------------------------------
  // The exclusion filter of preLoadFolder

  /** How many exclusion entries, each put behind `prefix`, occur in `file`
      (the counter `IdMatch`). */
  function MatchCount(prefix: string, excls: seq<string>, file: string): nat
  {
    if excls == [] then 0
    else
      MatchCount(prefix, excls[..|excls| - 1], file) +
      (if Contains(prefix + excls[|excls| - 1], file) then 1 else 0)
  }

  /** A file is dropped when exactly one exclusion entry matches it. */
  predicate Excluded(prefix: string, excls: seq<string>, file: string)
  {
    MatchCount(prefix, excls, file) == 1
  }

  /** The candidates that survive the filter, in their original order. */
  function Kept(prefix: string, excls: seq<string>, files: seq<string>): seq<string>
  {
    if files == [] then []
    else
      var f := files[|files| - 1];
      Kept(prefix, excls, files[..|files| - 1]) + (if Excluded(prefix, excls, f) then [] else [f])
  }

  /** The count is 0 exactly when no entry matches. */
  lemma {:induction false} MatchCountZero(prefix: string, excls: seq<string>, file: string)
    ensures MatchCount(prefix, excls, file) == 0 <==>
      forall k :: 0 <= k < |excls| ==> !Contains(prefix + excls[k], file)
  {
    if excls != [] {
      var n := |excls| - 1;
      MatchCountZero(prefix, excls[..n], file);
      assert forall k :: 0 <= k < n ==> excls[..n][k] == excls[k];
    }
  }

  /** One entry matching, and no other, makes the count exactly 1. */
  lemma {:induction false} SingleMatchCountsOne(prefix: string, excls: seq<string>, file: string, k: int)
    requires 0 <= k < |excls| && Contains(prefix + excls[k], file)
    requires forall m :: 0 <= m < |excls| && m != k ==> !Contains(prefix + excls[m], file)
    ensures MatchCount(prefix, excls, file) == 1
    decreases |excls|
  {
    var n := |excls| - 1;
    var init := excls[..n];
    assert forall j :: 0 <= j < n ==> init[j] == excls[j];
    if k == n {
      MatchCountZero(prefix, init, file);
    } else {
      SingleMatchCountsOne(prefix, init, file, k);
    }
  }

  /** A count of exactly 1 comes from one matching entry, and no other. */
  lemma {:induction false} CountOneHasSingleMatch(prefix: string, excls: seq<string>, file: string)
    requires Excluded(prefix, excls, file)
    ensures exists k :: 0 <= k < |excls| && Contains(prefix + excls[k], file) &&
                        forall m :: 0 <= m < |excls| && m != k ==> !Contains(prefix + excls[m], file)
    decreases |excls|
  {
    var n := |excls| - 1;
    var init := excls[..n];
    var lastHits := Contains(prefix + excls[n], file);
    assert MatchCount(prefix, excls, file) == MatchCount(prefix, init, file) + (if lastHits then 1 else 0);
    if lastHits {
      MatchCountZero(prefix, init, file);
      forall m | 0 <= m < |excls| && m != n
        ensures !Contains(prefix + excls[m], file)
      {
        assert excls[m] == init[m];
      }
    } else {
      CountOneHasSingleMatch(prefix, init, file);
      var k :| 0 <= k < n && Contains(prefix + init[k], file) &&
        forall m :: 0 <= m < n && m != k ==> !Contains(prefix + init[m], file);
      forall m | 0 <= m < |excls| && m != k
        ensures !Contains(prefix + excls[m], file)
      {
        if m < n {
          assert excls[m] == init[m];
        }
      }
      assert excls[k] == init[k];
    }
  }

  /** The filter's rule: a file is dropped exactly when one entry, and no
      other, matches it; a file that two entries match is kept. */
  lemma ExcludedIffSingleMatch(prefix: string, excls: seq<string>, file: string)
    ensures Excluded(prefix, excls, file) <==>
      exists k :: 0 <= k < |excls| && Contains(prefix + excls[k], file) &&
        forall m :: 0 <= m < |excls| && m != k ==> !Contains(prefix + excls[m], file)
  {
    if Excluded(prefix, excls, file) {
      CountOneHasSingleMatch(prefix, excls, file);
    }
    if exists k :: 0 <= k < |excls| && Contains(prefix + excls[k], file) &&
         forall m :: 0 <= m < |excls| && m != k ==> !Contains(prefix + excls[m], file)
    {
      var k :| 0 <= k < |excls| && Contains(prefix + excls[k], file) &&
        forall m :: 0 <= m < |excls| && m != k ==> !Contains(prefix + excls[m], file);
      SingleMatchCountsOne(prefix, excls, file, k);
    }
  }

  /** The filter adds nothing and keeps exactly the candidates not excluded. */
  lemma {:induction false} KeptMembership(prefix: string, excls: seq<string>, files: seq<string>, f: string)
    ensures f in Kept(prefix, excls, files) <==> f in files && !Excluded(prefix, excls, f)
  {
    if files != [] {
      var n := |files| - 1;
      KeptMembership(prefix, excls, files[..n], f);
      assert files == files[..n] + [files[n]];
    }
  }

  /** The filter keeps the candidates' order: filtering two runs of candidates
      one after the other is filtering their concatenation. */
  lemma {:induction false} KeptAppend(prefix: string, excls: seq<string>, a: seq<string>, b: seq<string>)
    ensures Kept(prefix, excls, a + b) == Kept(prefix, excls, a) + Kept(prefix, excls, b)
    decreases |b|
  {
    if b == [] {
      assert a + b == a;
    } else {
      var n := |b| - 1;
      var ab, last := a + b, b[n];
      KeptAppend(prefix, excls, a, b[..n]);
      assert ab[..|ab| - 1] == a + b[..n] && ab[|ab| - 1] == last;
      var tail := if Excluded(prefix, excls, last) then [] else [last];
      assert Kept(prefix, excls, ab) == Kept(prefix, excls, a + b[..n]) + tail;
      assert Kept(prefix, excls, b) == Kept(prefix, excls, b[..n]) + tail;
    }
  }

  /** The candidate loop with its inner `IdMatch` counting loop. */
  method FilterExcluded(prefix: string, candidates: seq<string>, excludList: seq<string>)
    returns (kept: seq<string>)
    ensures kept == Kept(prefix, excludList, candidates)
  {
    kept := [];
    for i := 0 to |candidates|
      invariant kept == Kept(prefix, excludList, candidates[..i])
    {
      var infile := candidates[i];
      var idMatch := 0;
      for k := 0 to |excludList|
        invariant idMatch == MatchCount(prefix, excludList[..k], infile)
      {
        if Contains(prefix + excludList[k], infile) {
          idMatch := idMatch + 1;
        }
        assert excludList[..k + 1][..k] == excludList[..k];
      }
      assert excludList[..|excludList|] == excludList;
      assert candidates[..i + 1][..i] == candidates[..i];
      if idMatch != 1 {
        kept := kept + [infile];
      }
    }
    assert candidates[..|candidates|] == candidates;
  }

  // ---------------------------------------------------------------------
  // preLoadFolder

  /** One glob of preLoadFolder: the pattern, and the text put in front of each
      exclusion entry before it is looked for in a found path. */
  datatype Search = Search(pattern: string, prefix: string)

  /** Exclusion prefix for files directly in `path` as the source builds it:
      `path+'/'+'/'`. */
  function TopPrefixAsWritten(path: string): string
  {
    path + "/" + "/"
  }

  /** Exclusion prefix for files directly in `path` that the two folder
      branches suggest (`path+'/'+folder+'/'` without a folder); the source
      does not build this one. */
  function TopPrefix(path: string): string
  {
    path + "/"
  }

  /** One glob per folder of the working directory (preloader2.py:78-82). */
  function FolderSearches(path: string, fileType: string, folderList: seq<string>): seq<Search>
  {
    seq(|folderList|, i requires 0 <= i < |folderList| =>
      Search(PathJoin(path, folderList[i] + "/*." + fileType), path + "/" + folderList[i] + "/"))
  }

  /** One glob per folder of `subFolder` (preloader2.py:91-95). */
  function SubFolderSearches(path: string, fileType: string, subFolder: string, folderList: seq<string>): seq<Search>
  {
    seq(|folderList|, i requires 0 <= i < |folderList| =>
      Search(PathJoin(path, subFolder + "/" + folderList[i] + "/*." + fileType),
             path + "/" + subFolder + "/" + folderList[i] + "/"))
  }

  /** The globs preLoadFolder runs: the working directory alone, with the
      exclusion prefix `top`, when the folder list holds "NaN"; otherwise one
      per folder, under `subFolder` unless that string contains "NaN". */
  function SearchesWith(top: string, path: string, fileType: string, folderList: seq<string>,
                        subFolder: string): seq<Search>
  {
    if NaN in folderList then [Search(PathJoin(path, "*." + fileType), top)]
    else if Contains(NaN, subFolder) then FolderSearches(path, fileType, folderList)
    else SubFolderSearches(path, fileType, subFolder, folderList)
  }

  /** The globs of preLoadFolder as the source writes it. */
  function Searches(path: string, fileType: string, folderList: seq<string>, subFolder: string): seq<Search>
  {
    SearchesWith(TopPrefixAsWritten(path), path, fileType, folderList, subFolder)
  }

  /** The globs of preLoadFolder with the top-level exclusion prefix corrected. */
  function IntendedSearches(path: string, fileType: string, folderList: seq<string>, subFolder: string): seq<Search>
  {
    SearchesWith(TopPrefix(path), path, fileType, folderList, subFolder)
  }

  /** The paths selected by a list of globs, glob by glob. */
  function Selected(glob: Glob, excls: seq<string>, searches: seq<Search>): seq<string>
  {
    if searches == [] then []
    else
      var s := searches[|searches| - 1];
      Selected(glob, excls, searches[..|searches| - 1]) + Kept(s.prefix, excls, glob(s.pattern))
  }

  /** A selected path was found by one of the globs and not excluded by that
      glob's prefix; every such path is selected. */
  lemma {:induction false} SelectedMembership(glob: Glob, excls: seq<string>, searches: seq<Search>, p: string)
    ensures p in Selected(glob, excls, searches) <==>
      exists k :: 0 <= k < |searches| && p in glob(searches[k].pattern) && !Excluded(searches[k].prefix, excls, p)
  {
    if searches != [] {
      var n := |searches| - 1;
      var init, s := searches[..n], searches[n];
      SelectedMembership(glob, excls, init, p);
      KeptMembership(s.prefix, excls, glob(s.pattern), p);
      assert Selected(glob, excls, searches) == Selected(glob, excls, init) + Kept(s.prefix, excls, glob(s.pattern));
      if p in Selected(glob, excls, init) {
        var k :| 0 <= k < n && p in glob(init[k].pattern) && !Excluded(init[k].prefix, excls, p);
        assert init[k] == searches[k];
      }
      if exists k :: 0 <= k < |searches| && p in glob(searches[k].pattern) && !Excluded(searches[k].prefix, excls, p) {
        var k :| 0 <= k < |searches| && p in glob(searches[k].pattern) && !Excluded(searches[k].prefix, excls, p);
        if k < n {
          assert init[k] == searches[k];
        }
      }
    }
  }

  /** The folder loop of preLoadFolder: glob each folder, filter what it
      finds, and append the survivors. */
  method FilterSearches(searches: seq<Search>, excludList: seq<string>, glob: Glob)
    returns (imgList: seq<string>)
    ensures imgList == Selected(glob, excludList, searches)
  {
    imgList := [];
    for i := 0 to |searches|
      invariant imgList == Selected(glob, excludList, searches[..i])
    {
      var kept := FilterExcluded(searches[i].prefix, glob(searches[i].pattern), excludList);
      imgList := imgList + kept;
      assert searches[..i + 1][..i] == searches[..i];
    }
    assert searches[..|searches|] == searches;
  }

  /** The body of preLoadFolder, with `top` as the exclusion prefix for files
      directly in the working directory. */
  method LoadFolder(top: string, path: string, fileType: string, folderList: seq<string>,
                    excludList: seq<string>, subFolder: string, glob: Glob)
    returns (imgObjList: seq<ImageStim>, pathOut: string)
    ensures Shows(imgObjList, Selected(glob, excludList, SearchesWith(top, path, fileType, folderList, subFolder)))
    ensures pathOut == path
  {
    var imgList;
    if NaN in folderList {
      imgList := FilterExcluded(top, glob(PathJoin(path, "*." + fileType)), excludList);
      assert [Search(PathJoin(path, "*." + fileType), top)][..0] == [];
    } else if Contains(NaN, subFolder) {
      imgList := FilterSearches(FolderSearches(path, fileType, folderList), excludList, glob);
    } else {
      imgList := FilterSearches(SubFolderSearches(path, fileType, subFolder, folderList), excludList, glob);
    }
    imgObjList := BuildImages(imgList);
    pathOut := path;
  }

  /** `preLoadFolder(window, fileType, folderList, excludList, subFolder)` as
      written, returning the loaded images and the working directory. Defaults
      are the source's: pass ["NaN"], ["NaN"] and "NaN". */
  method PreLoadFolder(path: string, fileType: string, folderList: seq<string>,
                       excludList: seq<string>, subFolder: string, glob: Glob)
    returns (imgObjList: seq<ImageStim>, pathOut: string)
    ensures Shows(imgObjList, Selected(glob, excludList, Searches(path, fileType, folderList, subFolder)))
    ensures pathOut == path
  {
    imgObjList, pathOut := LoadFolder(TopPrefixAsWritten(path), path, fileType, folderList, excludList, subFolder, glob);
  }

  /** preLoadFolder with the top-level exclusion prefix corrected to `path+'/'`. */
  method PreLoadFolderIntended(path: string, fileType: string, folderList: seq<string>,
                               excludList: seq<string>, subFolder: string, glob: Glob)
    returns (imgObjList: seq<ImageStim>, pathOut: string)
    ensures Shows(imgObjList, Selected(glob, excludList, IntendedSearches(path, fileType, folderList, subFolder)))
    ensures pathOut == path
  {
    imgObjList, pathOut := LoadFolder(TopPrefix(path), path, fileType, folderList, excludList, subFolder, glob);
  }

  /** With the prefix as the source writes it, no exclusion entry can match a
      path that holds no "//", so every file directly in the working directory
      is kept whatever the exclusion list says. */
  lemma {:induction false} TopLevelExclusionInert(path: string, excls: seq<string>, files: seq<string>)
    requires forall f :: f in files ==> !Contains("//", f)
    ensures Kept(TopPrefixAsWritten(path), excls, files) == files
  {
    if files != [] {
      var n := |files| - 1;
      var f := files[n];
      TopLevelExclusionInert(path, excls, files[..n]);
      forall k | 0 <= k < |excls|
        ensures !Contains(TopPrefixAsWritten(path) + excls[k], f)
      {
        assert TopPrefixAsWritten(path) + excls[k] == path + "//" + excls[k];
        ContainsPiece(path, "//", excls[k]);
        if Contains(TopPrefixAsWritten(path) + excls[k], f) {
          ContainsTransitive("//", path + "//" + excls[k], f);
        }
      }
      MatchCountZero(TopPrefixAsWritten(path), excls, f);
      assert files == files[..n] + [f];
    }
  }

  /** With the corrected prefix, a file directly in the working directory
      whose name starts with the one exclusion entry is dropped. */
  lemma TopLevelExclusionApplies(path: string, excl: string, rest: string)
    ensures Kept(TopPrefix(path), [excl], [path + "/" + excl + rest]) == []
  {
    var f := path + "/" + excl + rest;
    ContainsPiece([], TopPrefix(path) + excl, rest);
    assert [] + (TopPrefix(path) + excl) + rest == f;
    assert [excl][..0] == [];
    assert MatchCount(TopPrefix(path), [excl], f) == 1;
    assert [f][..0] == [];
  }

  /** The input that shows the difference: excluding "face1" in "/exp" keeps
      "/exp/face1.png" with the prefix as written and drops it once corrected. */
  lemma TopLevelExclusionExample()
    ensures Kept(TopPrefixAsWritten("/exp"), ["face1"], ["/exp/face1.png"]) == ["/exp/face1.png"]
    ensures Kept(TopPrefix("/exp"), ["face1"], ["/exp/face1.png"]) == []
  {
    var f := "/exp/face1.png";
    forall i | 0 <= i <= |f|
      ensures !OccursAt("//", f, i)
    {
      if i + 2 <= |f| {
        assert f[i..i + 2][0] == f[i] && f[i..i + 2][1] == f[i + 1];
        assert f[i] != '/' || f[i + 1] != '/';
      }
    }
    TopLevelExclusionInert("/exp", ["face1"], [f]);
    assert "/exp" + "/" + "face1" + ".png" == f;
    TopLevelExclusionApplies("/exp", "face1", ".png");
  }

  /** The same input at the level of preLoadFolder's defaults: with folder
      list ["NaN"] the source loads "/exp/face1.png" although "face1" is
      excluded; the corrected prefix selects nothing. */
  lemma PreLoadFolderExclusionExample(glob: Glob)
    requires glob("/exp/*.png") == ["/exp/face1.png"]
    ensures Selected(glob, ["face1"], Searches("/exp", "png", [NaN], NaN)) == ["/exp/face1.png"]
    ensures Selected(glob, ["face1"], IntendedSearches("/exp", "png", [NaN], NaN)) == []
  {
    TopLevelExclusionExample();
    assert PathJoin("/exp", "*." + "png") == "/exp/*.png";
    var written := Searches("/exp", "png", [NaN], NaN);
    var intended := IntendedSearches("/exp", "png", [NaN], NaN);
    assert written == [Search("/exp/*.png", TopPrefixAsWritten("/exp"))];
    assert intended == [Search("/exp/*.png", TopPrefix("/exp"))];
    assert written[..0] == [] && intended[..0] == [];
  }

  // ---------------------------------------------------------------------
  // Globbing a list of names

  /** All paths the globs of a list of patterns return, pattern by pattern. */
  function Globbed(glob: Glob, patterns: seq<string>): seq<string>
  {
    if patterns == [] then []
    else Globbed(glob, patterns[..|patterns| - 1]) + glob(patterns[|patterns| - 1])
  }

  /** A globbed path is a result of one of the patterns, and every result of
      every pattern is globbed. */
  lemma {:induction false} GlobbedMembership(glob: Glob, patterns: seq<string>, p: string)
    ensures p in Globbed(glob, patterns) <==> exists k :: 0 <= k < |patterns| && p in glob(patterns[k])
  {
    if patterns != [] {
      var n := |patterns| - 1;
      var init := patterns[..n];
      GlobbedMembership(glob, init, p);
      assert Globbed(glob, patterns) == Globbed(glob, init) + glob(patterns[n]);
      if p in Globbed(glob, init) {
        var k :| 0 <= k < n && p in glob(init[k]);
        assert init[k] == patterns[k];
      }
      if exists k :: 0 <= k < |patterns| && p in glob(patterns[k]) {
        var k :| 0 <= k < |patterns| && p in glob(patterns[k]);
        if k < n {
          assert init[k] == patterns[k];
        }
      }
    }
  }

  /** The loop `for item in names: for infile in glob.glob(pattern): imgList.append(infile)`. */
  method GlobAll(glob: Glob, patterns: seq<string>) returns (imgList: seq<string>)
    ensures imgList == Globbed(glob, patterns)
  {
    imgList := [];
    for i := 0 to |patterns|
      invariant imgList == Globbed(glob, patterns[..i])
    {
      var found := glob(patterns[i]);
      for j := 0 to |found|
        invariant imgList == Globbed(glob, patterns[..i]) + found[..j]
      {
        imgList := imgList + [found[j]];
        assert found[..j + 1] == found[..j] + [found[j]];
      }
      assert found[..|found|] == found;
      assert patterns[..i + 1][..i] == patterns[..i];
    }
    assert patterns[..|patterns|] == patterns;
  }

  /** `os.path.join(path, dir + item)` for every name. */
  function NamePatterns(path: string, dir: string, names: seq<string>): seq<string>
  {
    seq(|names|, i requires 0 <= i < |names| => PathJoin(path, dir + names[i]))
  }

  /** `preLoadpwd(window, fileType)`: every file of the type in the working
      directory, no exclusions. */
  method PreLoadPwd(path: string, fileType: string, glob: Glob)
    returns (imgObjList: seq<ImageStim>, pathOut: string)
    ensures Shows(imgObjList, glob(PathJoin(path, "*." + fileType)))
    ensures pathOut == path
  {
    var pattern := PathJoin(path, "*." + fileType);
    var imgList := GlobAll(glob, [pattern]);
    assert [pattern][..0] == [];
    imgObjList := BuildImages(imgList);
    pathOut := path;
  }

  // ---------------------------------------------------------------------
  // Trial-table collectors: preloadXlsx1Col and preloadMinImg

  /** A row of the conditions table: column name to cell text. */
  type Trial = map<string, string>

  /** The column names the source reads: it looks up the attributes literally
      named `imgFile` and `imgCol` of each row. */
  const ImgFileColumn := "imgFile"
  const ImgColColumn := "imgCol"

  /** Every index of the trial sequence points into the table. */
  predicate IndicesIn(trials: seq<Trial>, idx: seq<int>)
  {
    forall k :: 0 <= k < |idx| ==> 0 <= idx[k] < |trials|
  }

  /** ... and every row it points to has the column. */
  predicate RowsHave(trials: seq<Trial>, idx: seq<int>, column: string)
  {
    IndicesIn(trials, idx) && forall k :: 0 <= k < |idx| ==> column in trials[idx[k]]
  }

  /** The column's cell of every row the trial sequence visits, in that order. */
  function ColumnValues(trials: seq<Trial>, idx: seq<int>, column: string): (names: seq<string>)
    requires RowsHave(trials, idx, column)
    ensures |names| == |idx|
    ensures forall k :: 0 <= k < |idx| ==> names[k] == trials[idx[k]][column]
  {
    if idx == [] then []
    else
      var n := |idx| - 1;
      ColumnValues(trials, idx[..n], column) + [trials[idx[n]][column]]
  }

  /** The name-collection loop of preloadXlsx1Col: one name per entry of the
      trial sequence, in order, duplicates kept. */
  method CollectNames(trialList: seq<Trial>, sequenceIndices: seq<int>) returns (imgMatch: seq<string>)
    requires RowsHave(trialList, sequenceIndices, ImgFileColumn)
    ensures |imgMatch| == |sequenceIndices|
    ensures forall k :: 0 <= k < |sequenceIndices| ==> imgMatch[k] == trialList[sequenceIndices[k]][ImgFileColumn]
  {
    imgMatch := [];
    for k := 0 to |sequenceIndices|
      invariant |imgMatch| == k
      invariant forall m :: 0 <= m < k ==> imgMatch[m] == trialList[sequenceIndices[m]][ImgFileColumn]
    {
      var trial := trialList[sequenceIndices[k]];
      imgMatch := imgMatch + [trial[ImgFileColumn]];
    }
  }

  /** The name-collection loops of preloadMinImg: the same walk over the trial
      sequence, appending a name only if it is not collected yet; nothing is
      collected when the column list is empty. */
  method CollectDistinctNames(trialList: seq<Trial>, sequenceIndices: seq<int>, imgColList: seq<string>)
    returns (imgMatch: seq<string>)
    requires IndicesIn(trialList, sequenceIndices)
    requires imgColList != [] ==> RowsHave(trialList, sequenceIndices, ImgColColumn)
    ensures imgColList == [] ==> imgMatch == []
    ensures imgColList != [] ==> imgMatch == Dedup(ColumnValues(trialList, sequenceIndices, ImgColColumn))
  {
    imgMatch := [];
    for k := 0 to |sequenceIndices|
      invariant imgColList == [] ==> imgMatch == []
      invariant imgColList != [] ==> imgMatch == Dedup(ColumnValues(trialList, sequenceIndices[..k], ImgColColumn))
    {
      var trial := trialList[sequenceIndices[k]];
      ghost var done: seq<string> := [];
      if imgColList != [] {
        ColumnValuesStep(trialList, sequenceIndices, ImgColColumn, k);
        done := ColumnValues(trialList, sequenceIndices[..k], ImgColColumn);
      }
      for c := 0 to |imgColList|
        invariant c == 0 ==> imgMatch == Dedup(done)
        invariant c > 0 ==> imgMatch == Dedup(done + [trial[ImgColColumn]])
      {
        DedupSnoc(done, trial[ImgColColumn]);
        if trial[ImgColColumn] !in imgMatch {
          imgMatch := imgMatch + [trial[ImgColColumn]];
        }
      }
    }
    assert sequenceIndices[..|sequenceIndices|] == sequenceIndices;
  }

  /** One more entry of the trial sequence adds its row's cell to the column. */
  lemma ColumnValuesStep(trials: seq<Trial>, idx: seq<int>, column: string, k: int)
    requires RowsHave(trials, idx, column) && 0 <= k < |idx|
    ensures RowsHave(trials, idx[..k], column) && RowsHave(trials, idx[..k + 1], column)
    ensures column in trials[idx[k]]
    ensures ColumnValues(trials, idx[..k + 1], column) ==
      ColumnValues(trials, idx[..k], column) + [trials[idx[k]][column]]
  {
    assert idx[..k + 1][..k] == idx[..k];
  }

  /** `preloadXlsx1Col(window, THVar, imgFile)`: loads, in trial order and
      with repeats, every file `os.path.join(path, name)` globs to. The source
      reads the `imgFile` column whatever the argument `imgFile` says. */
  method PreloadXlsx1Col(trialList: seq<Trial>, sequenceIndices: seq<int>, imgFile: string,
                         path: string, glob: Glob)
    returns (imgObjList: seq<ImageStim>, pathOut: string)
    requires RowsHave(trialList, sequenceIndices, ImgFileColumn)
    ensures Shows(imgObjList, Globbed(glob, NamePatterns(path, "", ColumnValues(trialList, sequenceIndices, ImgFileColumn))))
    ensures pathOut == path
  {
    var imgMatch := CollectNames(trialList, sequenceIndices);
    var patterns := seq(|imgMatch|, i requires 0 <= i < |imgMatch| => PathJoin(path, imgMatch[i]));
    assert imgMatch == ColumnValues(trialList, sequenceIndices, ImgFileColumn);
    assert forall i :: 0 <= i < |imgMatch| ==> "" + imgMatch[i] == imgMatch[i];
    assert patterns == NamePatterns(path, "", imgMatch);
    var imgList := GlobAll(glob, patterns);
    imgObjList := BuildImages(imgList);
    pathOut := path;
  }

  /** `preloadMinImg(window, THVar, imgColList, folder)`: loads, once each and
      in order of first use, every file `os.path.join(path, folder+'/'+name)`
      globs to. */
  method PreloadMinImg(trialList: seq<Trial>, sequenceIndices: seq<int>, imgColList: seq<string>,
                       folder: string, path: string, glob: Glob)
    returns (imgObjList: seq<ImageStim>, pathOut: string)
    requires IndicesIn(trialList, sequenceIndices)
    requires imgColList != [] ==> RowsHave(trialList, sequenceIndices, ImgColColumn)
    ensures imgColList == [] ==> imgObjList == []
    ensures imgColList != [] ==>
      Shows(imgObjList, Globbed(glob, NamePatterns(path, folder + "/",
        Dedup(ColumnValues(trialList, sequenceIndices, ImgColColumn)))))
    ensures pathOut == path
  {
    var imgMatch := CollectDistinctNames(trialList, sequenceIndices, imgColList);
    var patterns := seq(|imgMatch|, i requires 0 <= i < |imgMatch| => PathJoin(path, folder + "/" + imgMatch[i]));
    assert patterns == NamePatterns(path, folder + "/", imgMatch);
    var imgList := GlobAll(glob, patterns);
    imgObjList := BuildImages(imgList);
    pathOut := path;
  }

  // ---------------------------------------------------------------------
  // Showing a preloaded image on a component

  /** An image component of the experiment; `setImage` replaces its image. */
  class ImageComponent {
    var image: string

    constructor (image: string)
      ensures this.image == image
    {
      this.image := image;
    }

    method SetImage(img: string)
      modifies this
      ensures image == img
    {
      image := img;
    }
  }

  /** How a loaded image is picked: by a name its path contains
      (imgMatchFolder) or by its whole path (imgMatchPwd). */
  datatype Match = NameIn(name: string) | PathIs(full: string)

  predicate Hits(m: Match, image: string)
  {
    match m
    case NameIn(name) => Contains(name, image)
    case PathIs(full) => image == full
  }

  /** The position of the last image the match picks, or -1 when no image
      matches. */
  function LastHitIndex(objs: seq<ImageStim>, m: Match): (k: int)
    ensures -1 <= k < |objs|
    ensures 0 <= k ==> Hits(m, objs[k].image)
    ensures forall j :: k < j < |objs| ==> !Hits(m, objs[j].image)
  {
    if objs == [] then -1
    else if Hits(m, objs[|objs| - 1].image) then |objs| - 1
    else
      var init := objs[..|objs| - 1];
      var k := LastHitIndex(init, m);
      assert forall j :: k < j < |init| ==> objs[j] == init[j];
      k
  }

  /** The path of the last image the match picks, if any. */
  function LastHit(objs: seq<ImageStim>, m: Match): Option<string>
  {
    var k := LastHitIndex(objs, m);
    if k < 0 then None else Some(objs[k].image)
  }

  /** The component ends up showing the last image the match picks, or keeps
      what it showed when nothing is picked. */
  function ShownAfter(objs: seq<ImageStim>, m: Match, current: string): string
  {
    LastHit(objs, m).GetOr(current)
  }

  /** Scanning one more image: a hit replaces what is shown. */
  lemma ShownAfterSnoc(objs: seq<ImageStim>, obj: ImageStim, m: Match, current: string)
    ensures ShownAfter(objs + [obj], m, current) ==
      if Hits(m, obj.image) then obj.image else ShownAfter(objs, m, current)
  {
    var ext := objs + [obj];
    assert ext[..|objs|] == objs;
    var k := LastHitIndex(objs, m);
    if !Hits(m, obj.image) && 0 <= k {
      assert ext[k] == objs[k];
    }
  }

  /** `imgMatchFolder(imgObjList, imgFile, imgComp)` for a string `imgFile`. */
  method ImgMatchFolder(imgObjList: seq<ImageStim>, imgFile: string, imgComp: ImageComponent)
    modifies imgComp
    ensures imgComp.image == ShownAfter(imgObjList, NameIn(imgFile), old(imgComp.image))
  {
    for i := 0 to |imgObjList|
      invariant imgComp.image == ShownAfter(imgObjList[..i], NameIn(imgFile), old(imgComp.image))
    {
      var img := imgObjList[i];
      ShownAfterSnoc(imgObjList[..i], img, NameIn(imgFile), old(imgComp.image));
      assert imgObjList[..i + 1] == imgObjList[..i] + [img];
      if Contains(imgFile, img.image) {
        imgComp.SetImage(img.image);
      }
    }
    assert imgObjList[..|imgObjList|] == imgObjList;
  }

  /** `imgMatchPwd(imgObjList, imgFile, imgComp)` for a string `imgFile`. */
  method ImgMatchPwd(imgObjList: seq<ImageStim>, imgFile: string, imgComp: ImageComponent, path: string)
    modifies imgComp
    ensures imgComp.image == ShownAfter(imgObjList, PathIs(PathJoin(path, imgFile)), old(imgComp.image))
  {
    for i := 0 to |imgObjList|
      invariant imgComp.image == ShownAfter(imgObjList[..i], PathIs(PathJoin(path, imgFile)), old(imgComp.image))
    {
      var img := imgObjList[i];
      ShownAfterSnoc(imgObjList[..i], img, PathIs(PathJoin(path, imgFile)), old(imgComp.image));
      assert imgObjList[..i + 1] == imgObjList[..i] + [img];
      if img.image == PathJoin(path, imgFile) {
        imgComp.SetImage(img.image);
      }
    }
    assert imgObjList[..|imgObjList|] == imgObjList;
  }

  /** `xlsxSingleMatcher(imgObjList, countVar, imgComp)`: shows the image at
      position `countVar`, counted from the end when negative as Python does. */
  method XlsxSingleMatcher(imgObjList: seq<ImageStim>, countVar: int, imgComp: ImageComponent)
    requires -|imgObjList| <= countVar < |imgObjList|
    modifies imgComp
    ensures imgComp.image == imgObjList[if countVar < 0 then |imgObjList| + countVar else countVar].image
  {
    var k := if countVar < 0 then |imgObjList| + countVar else countVar;
    imgComp.SetImage(imgObjList[k].image);
  }
}
