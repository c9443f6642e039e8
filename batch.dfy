/**
 * src/batch_processing.py: running one processing function over a list of
 * image files, and collecting the image files under a directory.  The file
 * system is abstract: what processing and saving do to a file is given by
 * the functions `process` and `save`, and the directory walk by its result.
 */
module Batch {
  import opened Wrappers
  import opened Paths

  const DefaultOutputDir: string := "processed_images"
  const DefaultExtensions: seq<string> := ["jpg", "jpeg", "png"]

  // ---------------------------------------------------------------------
  // process_batch
  // ---------------------------------------------------------------------

  /**
   * Where a result is saved: the output directory, one '/' unless it is
   * empty or already ends in one, then the input's basename.
   */
  function SavePath(outputDir: string, imagePath: string): (p: string)
    ensures |outputDir| <= |p| && p[..|outputDir|] == outputDir
    ensures p[|outputDir|..] == (if NeedsSeparator(outputDir) then "/" else "") + Basename(imagePath)
    ensures Basename(p) == Basename(imagePath)
  {
    JoinRelative(outputDir, Basename(imagePath));
    BasenameOfJoin(outputDir, Basename(imagePath));
    Join(outputDir, Basename(imagePath))
  }

  /** The results of `process` on the paths where it did not raise, in input order. */
  function Processed<T>(paths: seq<string>, process: string -> Result<T, string>): seq<T>
    decreases |paths|
  {
    if paths == [] then []
    else
      var rest := Processed(paths[..|paths| - 1], process);
      match process(paths[|paths| - 1])
      case Success(img) => rest + [img]
      case Failure(_) => rest
  }

  function ErrorLine(imagePath: string, e: string): string
  {
    "Error processing " + imagePath + ": " + e
  }

  function SavedLine(savePath: string): string
  {
    "Processed and saved: " + savePath
  }

  /** The line printed for one path: an error from processing or saving, or where it was saved. */
  function LogLine<T>(imagePath: string, process: string -> Result<T, string>,
                      save: (T, string) -> Option<string>, outputDir: string): string
  {
    match process(imagePath)
    case Failure(e) => ErrorLine(imagePath, e)
    case Success(img) =>
      match save(img, SavePath(outputDir, imagePath))
      case Some(e) => ErrorLine(imagePath, e)
      case None => SavedLine(SavePath(outputDir, imagePath))
  }

  /** Everything printed for the paths, one line per path, in input order. */
  function BatchLog<T>(paths: seq<string>, process: string -> Result<T, string>,
                       save: (T, string) -> Option<string>, outputDir: string): seq<string>
  {
    Lines(paths, path => LogLine(path, process, save, outputDir))
  }

  /** The line `line` prints for each path, in order. */
  function Lines(paths: seq<string>, line: string -> string): seq<string>
    decreases |paths|
  {
    if paths == [] then [] else Lines(paths[..|paths| - 1], line) + [line(paths[|paths| - 1])]
  }

  /**
   * process_batch.  `makedirsError` is the exception os.makedirs raised, if
   * any; it is the only one that escapes.  `process` stands for
   * process_function with *args and **kwargs applied; Failure(e) is an
   * exception it raised.  `save` stands for the result's save method;
   * Some(e) is an exception it raised.  `log` is what is printed.
   */
  method ProcessBatch<T>(imagePaths: seq<string>, process: string -> Result<T, string>,
                         save: (T, string) -> Option<string>, makedirsError: Option<string>,
                         outputDir: string := DefaultOutputDir)
    returns (result: Result<seq<T>, string>, log: seq<string>)
    ensures makedirsError.Some? ==> result == Failure(makedirsError.value) && log == []
    ensures makedirsError.None? ==> result == Success(Processed(imagePaths, process))
    ensures makedirsError.None? ==> log == BatchLog(imagePaths, process, save, outputDir)
  {
    if makedirsError.Some? {
      return Failure(makedirsError.value), [];
    }
    var processedImages: seq<T> := [];
    log := [];
    for i := 0 to |imagePaths|
      invariant processedImages == Processed(imagePaths[..i], process)
      invariant log == BatchLog(imagePaths[..i], process, save, outputDir)
    {
      var imagePath := imagePaths[i];
      assert imagePaths[..i + 1][..i] == imagePaths[..i];
      match process(imagePath)
      case Failure(e) =>
        log := log + [ErrorLine(imagePath, e)];
      case Success(processedImage) =>
        processedImages := processedImages + [processedImage];
        var savePath := SavePath(outputDir, imagePath);
        match save(processedImage, savePath)
        case Some(e) =>
          log := log + [ErrorLine(imagePath, e)];
        case None =>
          log := log + [SavedLine(savePath)];
    }
    assert imagePaths[..|imagePaths|] == imagePaths;
    result := Success(processedImages);
  }

  /** Processing a concatenation processes each part in turn: order is kept and no failure stops the rest. */
  lemma {:induction false} ProcessedAppend<T>(a: seq<string>, b: seq<string>, process: string -> Result<T, string>)
    ensures Processed(a + b, process) == Processed(a, process) + Processed(b, process)
    decreases |b|
  {
    if b == [] {
      assert a + b == a;
    } else {
      var init := b[..|b| - 1];
      assert (a + b)[..|a + b| - 1] == a + init;
      assert (a + b)[|a + b| - 1] == b[|b| - 1];
      ProcessedAppend(a, init, process);
    }
  }

  /** A path whose processing raises contributes nothing, wherever it stands. */
  lemma FailureIsolated<T>(a: seq<string>, p: string, b: seq<string>, process: string -> Result<T, string>)
    requires process(p).Failure?
    ensures Processed(a + [p] + b, process) == Processed(a + b, process)
  {
    ProcessedAppend(a + [p], b, process);
    ProcessedAppend(a, [p], process);
    ProcessedAppend(a, b, process);
    assert [p][..0] == [];
  }

  /** There are never more results than paths. */
  lemma {:induction false} ProcessedBound<T>(paths: seq<string>, process: string -> Result<T, string>)
    ensures |Processed(paths, process)| <= |paths|
    ensures (forall i :: 0 <= i < |paths| ==> process(paths[i]).Success?) ==> |Processed(paths, process)| == |paths|
    decreases |paths|
  {
    if paths != [] {
      ProcessedBound(paths[..|paths| - 1], process);
    }
  }

  /** An image is in the result exactly when processing some input path produced it. */
  lemma {:induction false} ProcessedMembers<T>(paths: seq<string>, process: string -> Result<T, string>, img: T)
    ensures img in Processed(paths, process) <==>
      exists i :: 0 <= i < |paths| && process(paths[i]) == Success(img)
    decreases |paths|
  {
    if paths != [] {
      var init := paths[..|paths| - 1];
      ProcessedMembers(init, process, img);
      if img in Processed(paths, process) && img !in Processed(init, process) {
        assert process(paths[|paths| - 1]) == Success(img);
      }
      if exists i :: 0 <= i < |paths| && process(paths[i]) == Success(img) {
        var i :| 0 <= i < |paths| && process(paths[i]) == Success(img);
        if i < |init| {
          assert init[i] == paths[i];
        }
      }
    }
  }

  /** Two inputs are saved to the same file exactly when their basenames agree. */
  lemma SavePathsCollide(outputDir: string, p1: string, p2: string)
    ensures SavePath(outputDir, p1) == SavePath(outputDir, p2) <==> Basename(p1) == Basename(p2)
  {
  }

  /** The log has one line per input path, and line i reports path i. */
  lemma BatchLogLines<T>(paths: seq<string>, process: string -> Result<T, string>,
                         save: (T, string) -> Option<string>, outputDir: string)
    ensures |BatchLog(paths, process, save, outputDir)| == |paths|
    ensures forall i :: 0 <= i < |paths| ==>
      BatchLog(paths, process, save, outputDir)[i] == LogLine(paths[i], process, save, outputDir)
  {
    LinesAt(paths, path => LogLine(path, process, save, outputDir));
  }

  lemma {:induction false} LinesAt(paths: seq<string>, line: string -> string)
    ensures |Lines(paths, line)| == |paths|
    ensures forall i :: 0 <= i < |paths| ==> Lines(paths, line)[i] == line(paths[i])
    decreases |paths|
  {
    if paths != [] {
      var init := paths[..|paths| - 1];
      LinesAt(init, line);
      forall i | 0 <= i < |init| ensures init[i] == paths[i] { }
    }
  }

  // ---------------------------------------------------------------------
  // load_images_from_directory
  // ---------------------------------------------------------------------

  /** One triple yielded by os.walk; the subdirectory names are not used. */
  datatype WalkEntry = WalkEntry(root: string, dirs: seq<string>, files: seq<string>)

  /** file.lower().endswith(extensions): a case-insensitive suffix test, no dot required. */
  predicate Kept(file: string, extensions: seq<string>)
  {
    exists e :: e in extensions && EndsWith(Lower(file), e)
  }

  /** Equivalently: some extension equals the file name's same-length tail, lowered. */
  lemma KeptBySuffix(file: string, extensions: seq<string>)
    ensures Kept(file, extensions) <==>
      exists e :: e in extensions && |e| <= |file| && Lower(file[|file| - |e|..]) == e
  {
    forall e | e in extensions && |e| <= |file|
      ensures EndsWith(Lower(file), e) <==> Lower(file[|file| - |e|..]) == e
    {
      assert Lower(file)[|file| - |e|..] == Lower(file[|file| - |e|..]);
    }
  }

  /** The kept files of one directory, joined with its root, in listing order. */
  function KeptIn(root: string, files: seq<string>, extensions: seq<string>): seq<string>
  {
    JoinedWhere(root, files, file => Kept(file, extensions))
  }

  /** The files that satisfy `keep`, each joined with `root`, in listing order. */
  function JoinedWhere(root: string, files: seq<string>, keep: string -> bool): seq<string>
    decreases |files|
  {
    if files == [] then []
    else
      var rest := JoinedWhere(root, files[..|files| - 1], keep);
      var file := files[|files| - 1];
      if keep(file) then rest + [Join(root, file)] else rest
  }

  /** The kept files of the whole walk, in visitation order. */
  function Collected(walk: seq<WalkEntry>, extensions: seq<string>): seq<string>
    decreases |walk|
  {
    if walk == [] then []
    else
      var last := walk[|walk| - 1];
      Collected(walk[..|walk| - 1], extensions) + KeptIn(last.root, last.files, extensions)
  }

  /**
   * load_images_from_directory; `walk` is what os.walk(directory) yields, in
   * order (nothing when the directory does not exist).
   */
  method LoadImagesFromDirectory(walk: seq<WalkEntry>, extensions: seq<string> := DefaultExtensions)
    returns (imagePaths: seq<string>)
    ensures imagePaths == Collected(walk, extensions)
  {
    imagePaths := [];
    for w := 0 to |walk|
      invariant imagePaths == Collected(walk[..w], extensions)
    {
      var entry := walk[w];
      assert walk[..w + 1][..w] == walk[..w];
      ghost var before := imagePaths;
      for f := 0 to |entry.files|
        invariant imagePaths == before + KeptIn(entry.root, entry.files[..f], extensions)
      {
        var file := entry.files[f];
        assert entry.files[..f + 1][..f] == entry.files[..f];
        if Kept(file, extensions) {
          imagePaths := imagePaths + [Join(entry.root, file)];
        }
      }
      assert entry.files[..|entry.files|] == entry.files;
    }
    assert walk[..|walk|] == walk;
  }

  /** A name is kept or not regardless of the case it is written in. */
  lemma KeptIgnoresCase(file: string, extensions: seq<string>)
    ensures Kept(file, extensions) <==> Kept(Lower(file), extensions)
  {
    LowerIdempotent(file);
  }

  /** An extension with an upper-case letter never matches, since only the file name is lowered. */
  lemma UpperExtensionNeverKeeps(file: string, e: string, k: nat)
    requires k < |e| && IsUpper(e[k])
    ensures !Kept(file, [e])
  {
    LoweredMissesUpper(file, e, k);
  }

  /** With the default extensions an upper-case "IMG.JPG" is kept. */
  lemma UpperCaseNameKept()
    ensures Kept("IMG.JPG", DefaultExtensions)
  {
    var l := Lower("IMG.JPG");
    assert l[4] == 'j' && l[5] == 'p' && l[6] == 'g';
    assert l[4..] == "jpg";
    assert EndsWith(l, DefaultExtensions[0]);
  }

  /** The suffix test needs no dot: "photojpeg" is kept. */
  lemma NoDotNameKept()
    ensures Kept("photojpeg", DefaultExtensions)
  {
    var l := Lower("photojpeg");
    assert l[5] == 'j' && l[6] == 'p' && l[7] == 'e' && l[8] == 'g';
    assert l[5..] == "jpeg";
    assert EndsWith(l, DefaultExtensions[1]);
  }

  /** "scan.gif" is not kept. */
  lemma OtherExtensionDropped()
    ensures !Kept("scan.gif", DefaultExtensions)
  {
    var l := Lower("scan.gif");
    assert l[7] == 'f';
    forall e | e in DefaultExtensions ensures !EndsWith(l, e) {
      assert e[|e| - 1] == 'g';
    }
  }

  /** A path is collected exactly when it is some walked root joined with one of its kept files. */
  lemma KeptInMembers(root: string, files: seq<string>, extensions: seq<string>, path: string)
    ensures path in KeptIn(root, files, extensions) <==>
      exists j :: 0 <= j < |files| && Kept(files[j], extensions) && path == Join(root, files[j])
  {
    JoinedWhereMembers(root, files, file => Kept(file, extensions), path);
  }

  lemma {:induction false} JoinedWhereMembers(root: string, files: seq<string>, keep: string -> bool, path: string)
    ensures path in JoinedWhere(root, files, keep) <==>
      exists j :: 0 <= j < |files| && keep(files[j]) && path == Join(root, files[j])
    decreases |files|
  {
    if files != [] {
      var init := files[..|files| - 1];
      JoinedWhereMembers(root, init, keep, path);
      if exists j :: 0 <= j < |files| && keep(files[j]) && path == Join(root, files[j]) {
        var j :| 0 <= j < |files| && keep(files[j]) && path == Join(root, files[j]);
        if j < |init| {
          assert init[j] == files[j];
        }
      }
    }
  }

  /** A path is collected exactly when it is kept from one of the walked directories. */
  lemma {:induction false} CollectedMembers(walk: seq<WalkEntry>, extensions: seq<string>, path: string)
    ensures path in Collected(walk, extensions) <==>
      exists i :: 0 <= i < |walk| && path in KeptIn(walk[i].root, walk[i].files, extensions)
    decreases |walk|
  {
    if walk != [] {
      var init := walk[..|walk| - 1];
      CollectedMembers(init, extensions, path);
      if exists i :: 0 <= i < |walk| && path in KeptIn(walk[i].root, walk[i].files, extensions) {
        var i :| 0 <= i < |walk| && path in KeptIn(walk[i].root, walk[i].files, extensions);
        if i < |init| {
          assert init[i] == walk[i];
        }
      }
    }
  }
}
