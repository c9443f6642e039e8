/**
 * The editor window of src/gui.py as objects: ImageProcessor holds the
 * loaded image and computes the presets, ImageApp holds the undo and redo
 * stacks and the output image and runs one method per button.  Every
 * method is proved against the session functions of module EditHistory.
 */
module Gui {
  import opened Wrappers
  import opened Pil
  import opened EditHistory

  class ImageProcessor {
    const pil: Library
    var originalImage: Option<Image>
    var outputImage: Option<Image>

    /** output_image is only ever assigned a copy of original_image. */
    ghost predicate Valid()
      reads this
    {
      outputImage == originalImage
    }

    constructor (pil: Library)
      ensures this.pil == pil && originalImage == None && outputImage == None
      ensures Valid()
    {
      this.pil := pil;
      originalImage := None;
      outputImage := None;
    }

    /**
     * select_image: `decoded` is what Image.open produced for the file, None
     * when Image.open raised, in which case no field is assigned.
     */
    method SelectImage(decoded: Option<Image>) returns (r: Result<Image, AppError>)
      modifies this
      ensures decoded.None? ==> r == Failure(OpenFailed) && unchanged(this)
      ensures decoded.Some? ==> r == Success(decoded.value) && originalImage == decoded && outputImage == decoded
    {
      if decoded.None? {
        return Failure(OpenFailed);
      }
      originalImage := decoded;
      outputImage := originalImage;
      r := Success(decoded.value);
    }

    /**
     * denoise, histogram_equalization, gamma_correction, unsharp_mask and
     * edge_detection: each reads original_image only, and returns None when
     * no image is loaded.
     */
    method ApplyPreset(p: Preset) returns (r: Option<Image>)
      ensures r == PresetResult(pil, p, originalImage)
    {
      if originalImage.Some? {
        r := Some(PresetImage(pil, p, originalImage.value));
      } else {
        r := None;
      }
    }

    /** save_output_image: the image written, None when output_image is unset. */
    method SaveOutputImage() returns (written: Option<Image>)
      requires Valid()
      ensures written == originalImage
    {
      written := outputImage;
    }
  }

  class ImageApp {
    const processor: ImageProcessor
    var undoStack: seq<Image>
    var redoStack: seq<Image>
    var outputImage: Option<Image>

    /** The abstract session this window is in. */
    function State(): Session
      reads this, processor
    {
      Session(processor.originalImage, undoStack, redoStack, outputImage)
    }

    ghost predicate Valid()
      reads this, processor
    {
      processor.Valid() && Consistent(State())
    }

    constructor (pil: Library)
      ensures Valid() && State() == Initial
      ensures fresh(processor) && processor.pil == pil
    {
      processor := new ImageProcessor(pil);
      undoStack := [];
      redoStack := [];
      outputImage := None;
    }

    /**
     * select_image, corrected: the file is opened before the stacks are
     * cleared, so a file that fails to open leaves the history intact.
     * An empty path is a cancelled dialog.
     */
    method SelectImage(path: string, decoded: Option<Image>) returns (err: Option<AppError>)
      requires Valid()
      modifies this, processor
      ensures Valid()
      ensures State() == Select(old(State()), path, decoded)
      ensures err == SelectError(path, decoded)
    {
      err := None;
      if path != "" {
        var r := processor.SelectImage(decoded);
        match r
        case Failure(e) =>
          err := Some(e);
        case Success(img) =>
          undoStack := [];
          redoStack := [];
          outputImage := Some(img);
          undoStack := undoStack + [img];
      }
    }

    /** update_image */
    method UpdateImage(img: Image)
      modifies this
      ensures State() == Update(old(State()), img)
    {
      outputImage := Some(img);
      undoStack := undoStack + [img];
      redoStack := [];
    }

    /** undo */
    method Undo()
      requires Valid()
      modifies this
      ensures Valid()
      ensures State() == EditHistory.Undo(old(State()))
    {
      if |undoStack| > 1 {
        var top := undoStack[|undoStack| - 1];
        undoStack := undoStack[..|undoStack| - 1];
        redoStack := redoStack + [top];
        outputImage := Some(undoStack[|undoStack| - 1]);
      }
    }

    /** redo */
    method Redo()
      requires Valid()
      modifies this
      ensures Valid()
      ensures State() == EditHistory.Redo(old(State()))
    {
      if redoStack != [] {
        var top := redoStack[|redoStack| - 1];
        redoStack := redoStack[..|redoStack| - 1];
        outputImage := Some(top);
        undoStack := undoStack + [top];
      }
    }

    /** The handlers denoise_image, histogram_equalization, unsharp_mask and edge_detection. */
    method RunPreset(p: Preset)
      requires Valid()
      modifies this
      ensures Valid()
      ensures State() == ApplyPreset(processor.pil, old(State()), p)
    {
      var r := processor.ApplyPreset(p);
      if r.Some? {
        UpdateImage(r.value);
      }
    }

    /** The gamma_correction handler; `answer` is what the dialog returned. */
    method GammaCorrection(answer: Option<real>)
      requires Valid()
      modifies this
      ensures Valid()
      ensures State() == ApplyGamma(processor.pil, old(State()), answer)
    {
      if Truthy(answer) {
        RunPreset(Pil.GammaCorrection(answer.value));
      }
    }

    /**
     * The handlers adjust_brightness, adjust_contrast, adjust_sharpness and
     * adjust_saturation: enhance the current output_image by the answered
     * factor.  Before any image is selected the attribute does not exist and
     * the handler raises.
     */
    method Adjust(kind: Enhancer, answer: Option<real>) returns (err: Option<AppError>)
      requires Valid()
      modifies this
      ensures Valid()
      ensures State() == EditHistory.Adjust(processor.pil, old(State()), kind, answer)
      ensures err == AdjustError(old(State()), answer)
    {
      err := None;
      if Truthy(answer) {
        if outputImage.None? {
          err := Some(NoImageLoaded);
        } else {
          var enhanced := processor.pil.enhance(kind, outputImage.value, answer.value);
          UpdateImage(enhanced);
        }
      }
    }

    /**
     * download_image, corrected: writes the image on screen.  An empty path
     * is a cancelled dialog and writes nothing.
     */
    method DownloadImage(path: string) returns (written: Option<Image>)
      requires Valid()
      ensures written == if path == "" then None else Saved(State())
      ensures path != "" && processor.originalImage.Some? ==> written == Some(Last(undoStack))
    {
      written := None;
      if path != "" {
        written := outputImage;
      }
    }
  }

  /** A window driven through the two-edit example using only the method contracts. */
  method EditAndNavigate(pil: Library, a: Image)
  {
    var app := new ImageApp(pil);
    var e := app.Adjust(Brightness, Some(1.5));
    assert e == Some(NoImageLoaded);
    e := app.SelectImage("a.png", Some(a));
    assert app.undoStack == [a];
    app.RunPreset(Denoise);
    var b := pil.filter(a, MedianFilter(3));
    assert app.undoStack == [a, b];
    e := app.Adjust(Contrast, Some(1.2));
    var c := pil.enhance(Contrast, b, 1.2);
    assert app.undoStack == [a, b, c] && app.redoStack == [];
    Navigate(app, a, b, c);
  }

  /** Undo past the first image, then redo once. */
  method Navigate(app: ImageApp, a: Image, b: Image, c: Image)
    requires app.Valid() && app.undoStack == [a, b, c] && app.redoStack == []
    modifies app, app.processor
  {
    app.Undo();
    assert app.undoStack == [a, b] && app.redoStack == [c];
    app.Undo();
    assert app.undoStack == [a] && app.redoStack == [c, b];
    app.Undo();
    assert app.outputImage == Some(a) && app.redoStack == [c, b];
    app.Redo();
    assert app.outputImage == Some(b) && app.undoStack == [a, b] && app.redoStack == [c];
    ReopenAndDownload(app, a, b, c);
  }

  /** A file that fails to open keeps the history; the download is the image on screen. */
  method ReopenAndDownload(app: ImageApp, a: Image, b: Image, c: Image)
    requires app.Valid() && app.undoStack == [a, b] && app.redoStack == [c]
    modifies app, app.processor
  {
    var e := app.SelectImage("broken.png", None);
    assert e == Some(OpenFailed) && app.undoStack == [a, b] && app.redoStack == [c];
    var written := app.DownloadImage("out.png");
    assert written == Some(b);
  }
}
