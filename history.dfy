/**
 * The undo/redo history of the editor window (ImageApp in src/gui.py) and
 * the image its ImageProcessor holds, as values: one `Session` per moment
 * between two button presses, and one function per handler giving the next
 * session.  The class layer in module Gui is proved against these functions.
 */
module EditHistory {
  import opened Wrappers
  import opened Pil

  /**
   * undo: ImageApp.undo_stack, oldest first; its last entry is the current image.
   * redo: ImageApp.redo_stack; its last entry is the most recently undone image.
   * output: ImageApp.output_image; None until the attribute is first assigned.
   * original: ImageProcessor.original_image, the image the presets read.
   */
  datatype Session = Session(
    original: Option<Image>,
    undo: seq<Image>,
    redo: seq<Image>,
    output: Option<Image>)

  /** Before any image has been selected. */
  const Initial: Session := Session(None, [], [], None)

  function Last<T>(s: seq<T>): T
    requires s != []
  {
    s[|s| - 1]
  }

  function DropLast<T>(s: seq<T>): seq<T>
    requires s != []
  {
    s[..|s| - 1]
  }

  /**
   * The consistency the editor relies on: nothing is shown or stacked before
   * an image is loaded, and once one is loaded the undo stack is never empty,
   * its first entry is the image as loaded and the output image is its last
   * entry.
   */
  predicate Consistent(s: Session)
  {
    && (s.original.None? ==> s.undo == [] && s.redo == [] && s.output.None?)
    && (s.original.Some? ==> s.undo != [] && s.undo[0] == s.original.value && s.output == Some(Last(s.undo)))
  }

  /** The session right after `img` has been decoded. */
  function Loaded(img: Image): (r: Session)
    ensures Consistent(r) && r.undo == [img] && r.redo == [] && r.output == Some(img)
  {
    Session(Some(img), [img], [], Some(img))
  }

  /** Python truthiness of the number a dialog returns: None and 0.0 are false. */
  predicate Truthy(answer: Option<real>)
  {
    answer.Some? && answer.value != 0.0
  }

  // ---------------------------------------------------------------------
  // Selecting an image
  // ---------------------------------------------------------------------

  /**
   * select_image as written: a non-empty path clears both stacks FIRST and
   * only then opens the file, so an image that fails to open (decoded == None)
   * leaves the stacks empty and the previous image on screen.
   */
  function SelectAsWritten(s: Session, path: string, decoded: Option<Image>): (r: Session)
    ensures path == "" ==> r == s
    ensures path != "" && decoded.None? ==>
      r.undo == [] && r.redo == [] && r.original == s.original && r.output == s.output
    ensures path != "" && decoded.Some? ==> r == Loaded(decoded.value)
    ensures path == "" || decoded.Some? ==> r == Select(s, path, decoded)
  {
    if path == "" then s
    else if decoded.None? then s.(undo := [], redo := [])
    else Loaded(decoded.value)
  }

  /**
   * select_image as evidently intended: a cancelled dialog (empty path) or a
   * file that fails to open changes nothing; otherwise the decoded image is
   * the sole undo entry and the output.
   */
  function Select(s: Session, path: string, decoded: Option<Image>): (r: Session)
    ensures path == "" || decoded.None? ==> r == s
    ensures path != "" && decoded.Some? ==>
      r.original == decoded && r.undo == [decoded.value] && r.redo == [] && r.output == decoded
    ensures Consistent(s) ==> Consistent(r)
  {
    if path == "" || decoded.None? then s else Loaded(decoded.value)
  }

  // ---------------------------------------------------------------------
  // Recording, undoing and redoing
  // ---------------------------------------------------------------------

  /** update_image: the new image becomes the output and the new top of the undo stack; the redo branch is discarded. */
  function Update(s: Session, img: Image): (r: Session)
    ensures r.output == Some(img) && r.undo == s.undo + [img] && r.redo == [] && r.original == s.original
    ensures Consistent(s) && s.original.Some? ==> Consistent(r)
  {
    s.(output := Some(img), undo := s.undo + [img], redo := [])
  }

  /** undo: a no-op unless the undo stack has more than one entry; otherwise its top moves onto the redo stack. */
  function Undo(s: Session): (r: Session)
    ensures r.original == s.original
    ensures |s.undo| <= 1 ==> r == s
    ensures |r.undo| + |r.redo| == |s.undo| + |s.redo|
    ensures |s.undo| > 1 ==>
      r.undo + [Last(s.undo)] == s.undo && r.redo == s.redo + [Last(s.undo)] && r.output == Some(Last(r.undo))
    ensures Consistent(s) ==> Consistent(r)
  {
    if |s.undo| <= 1 then s
    else
      var top, rest := Last(s.undo), DropLast(s.undo);
      s.(undo := rest, redo := s.redo + [top], output := Some(Last(rest)))
  }

  /** redo: a no-op when the redo stack is empty; otherwise its top becomes the output and returns to the undo stack. */
  function Redo(s: Session): (r: Session)
    ensures r.original == s.original
    ensures s.redo == [] ==> r == s
    ensures |r.undo| + |r.redo| == |s.undo| + |s.redo|
    ensures s.redo != [] ==>
      r.redo + [Last(s.redo)] == s.redo && r.undo == s.undo + [Last(s.redo)] && r.output == Some(Last(s.redo))
    ensures Consistent(s) ==> Consistent(r)
  {
    if s.redo == [] then s
    else
      var top := Last(s.redo);
      s.(output := Some(top), redo := DropLast(s.redo), undo := s.undo + [top])
  }

  // ---------------------------------------------------------------------
  // The operation handlers
  // ---------------------------------------------------------------------

  /** What an ImageProcessor preset returns: computed from original_image, None when nothing is loaded. */
  function PresetResult(pil: Library, p: Preset, original: Option<Image>): (r: Option<Image>)
    ensures r.None? <==> original.None?
  {
    if original.Some? then Some(PresetImage(pil, p, original.value)) else None
  }

  /** The handler of a preset button: record the preset's result if there is one. */
  function ApplyPreset(pil: Library, s: Session, p: Preset): (r: Session)
    ensures s.original.None? ==> r == s
    ensures s.original.Some? ==>
      r.original == s.original && r.undo == s.undo + [PresetImage(pil, p, s.original.value)] && r.redo == []
      && r.output == Some(PresetImage(pil, p, s.original.value))
    ensures Consistent(s) ==> Consistent(r)
  {
    match PresetResult(pil, p, s.original)
    case None => s
    case Some(img) => Update(s, img)
  }

  /** The gamma handler: a falsy dialog answer does nothing, any other runs the gamma preset. */
  function ApplyGamma(pil: Library, s: Session, answer: Option<real>): (r: Session)
    ensures !Truthy(answer) || s.original.None? ==> r == s
    ensures Truthy(answer) && s.original.Some? ==>
      var img := pil.point(s.original.value, Table(GammaTable(pil, answer.value)));
      r.original == s.original && r.undo == s.undo + [img] && r.redo == [] && r.output == Some(img)
    ensures Consistent(s) ==> Consistent(r)
  {
    if Truthy(answer) then ApplyPreset(pil, s, GammaCorrection(answer.value)) else s
  }

  /** Errors the handlers raise to the windowing toolkit. */
  datatype AppError =
    | OpenFailed          // Image.open raised
    | NoImageLoaded       // output_image read before it was ever assigned

  /** An adjust_* handler: enhance the CURRENT output by the answered factor. */
  function Adjust(pil: Library, s: Session, kind: Enhancer, answer: Option<real>): (r: Session)
    ensures !Truthy(answer) || s.output.None? ==> r == s
    ensures Truthy(answer) && s.output.Some? ==>
      var img := pil.enhance(kind, s.output.value, answer.value);
      r.original == s.original && r.undo == s.undo + [img] && r.redo == [] && r.output == Some(img)
    ensures Consistent(s) ==> Consistent(r)
  {
    if Truthy(answer) && s.output.Some? then Update(s, pil.enhance(kind, s.output.value, answer.value))
    else s
  }

  /** The error an adjust_* handler raises: reading output_image before any image was selected. */
  function AdjustError(s: Session, answer: Option<real>): (e: Option<AppError>)
    ensures Consistent(s) ==> (e.Some? <==> Truthy(answer) && s.original.None?)
  {
    if Truthy(answer) && s.output.None? then Some(NoImageLoaded) else None
  }

  /** The error select_image raises: the chosen file could not be decoded. */
  function SelectError(path: string, decoded: Option<Image>): (e: Option<AppError>)
    ensures e.Some? <==> path != "" && decoded.None?
  {
    if path != "" && decoded.None? then Some(OpenFailed) else None
  }

  // ---------------------------------------------------------------------
  // Saving
  // ---------------------------------------------------------------------

  /**
   * What "Download Image" writes as written: save_output_image saves the
   * processor's output_image, which select_image set to a copy of the
   * original and nothing assigns again.
   */
  function SavedAsWritten(s: Session): (r: Option<Image>)
    ensures Consistent(s) && s.original.Some? ==> r == Some(s.undo[0])
    ensures Consistent(s) && s.original.None? ==> r.None?
  {
    s.original
  }

  /** What "Download Image" evidently should write: the image on screen. */
  function Saved(s: Session): (r: Option<Image>)
    ensures Consistent(s) && s.original.Some? ==> r == Some(Last(s.undo))
    ensures Consistent(s) && s.original.None? ==> r.None?
  {
    s.output
  }

  // ---------------------------------------------------------------------
  // Sequences of button presses
  // ---------------------------------------------------------------------

  datatype Command =
    | SelectCmd(path: string, decoded: Option<Image>)
    | PresetCmd(preset: Preset)
    | GammaCmd(answer: Option<real>)
    | AdjustCmd(kind: Enhancer, factor: Option<real>)
    | UndoCmd
    | RedoCmd

  function Step(pil: Library, s: Session, c: Command): Session
  {
    match c
    case SelectCmd(path, decoded) => Select(s, path, decoded)
    case PresetCmd(p) => ApplyPreset(pil, s, p)
    case GammaCmd(answer) => ApplyGamma(pil, s, answer)
    case AdjustCmd(kind, answer) => Adjust(pil, s, kind, answer)
    case UndoCmd => Undo(s)
    case RedoCmd => Redo(s)
  }

  /** The session after the commands, first to last. */
  function Run(pil: Library, s: Session, cs: seq<Command>): Session
    decreases |cs|
  {
    if cs == [] then s else Run(pil, Step(pil, s, cs[0]), cs[1..])
  }

  predicate IsSelect(c: Command)
  {
    c.SelectCmd?
  }

  // ---------------------------------------------------------------------
  // Properties
  // ---------------------------------------------------------------------

  /** Every handler keeps the session consistent. */
  lemma StepConsistent(pil: Library, s: Session, c: Command)
    requires Consistent(s)
    ensures Consistent(Step(pil, s, c))
  {
  }

  /**
   * After any sequence of button presses the output mirrors the top of the
   * undo stack, and once an image is loaded the undo stack is never empty.
   */
  lemma {:induction false} RunConsistent(pil: Library, s: Session, cs: seq<Command>)
    requires Consistent(s)
    ensures Consistent(Run(pil, s, cs))
    ensures s.original.Some? ==> Run(pil, s, cs).undo != []
    decreases |cs|
  {
    if cs != [] {
      StepConsistent(pil, s, cs[0]);
      RunConsistent(pil, Step(pil, s, cs[0]), cs[1..]);
      if s.original.Some? {
        LoadedStaysLoaded(pil, s, cs);
      }
    }
  }

  /** Nothing unloads an image. */
  lemma {:induction false} LoadedStaysLoaded(pil: Library, s: Session, cs: seq<Command>)
    requires s.original.Some?
    ensures Run(pil, s, cs).original.Some?
    decreases |cs|
  {
    if cs != [] {
      LoadedStaysLoaded(pil, Step(pil, s, cs[0]), cs[1..]);
    }
  }

  /** An undo that moves an entry, followed by a redo, restores the session exactly. */
  lemma UndoThenRedo(s: Session)
    requires Consistent(s) && |s.undo| > 1
    ensures Redo(Undo(s)) == s
  {
    assert DropLast(s.undo) + [Last(s.undo)] == s.undo;
  }

  /** A redo that moves an entry, followed by an undo, restores the session exactly. */
  lemma RedoThenUndo(s: Session)
    requires Consistent(s) && s.redo != []
    ensures Undo(Redo(s)) == s
  {
    assert DropLast(s.redo) + [Last(s.redo)] == s.redo;
  }

  /** Undo and redo move entries between the stacks without losing or creating any. */
  lemma {:induction false} UndoRedoConserve(pil: Library, s: Session, cs: seq<Command>)
    requires forall i :: 0 <= i < |cs| ==> cs[i] == UndoCmd || cs[i] == RedoCmd
    ensures |Run(pil, s, cs).undo| + |Run(pil, s, cs).redo| == |s.undo| + |s.redo|
    ensures multiset(Run(pil, s, cs).undo) + multiset(Run(pil, s, cs).redo) == multiset(s.undo) + multiset(s.redo)
    decreases |cs|
  {
    if cs != [] {
      var t := Step(pil, s, cs[0]);
      if cs[0] == UndoCmd && |s.undo| > 1 {
        assert s.undo == DropLast(s.undo) + [Last(s.undo)];
      } else if cs[0] == RedoCmd && s.redo != [] {
        assert s.redo == DropLast(s.redo) + [Last(s.redo)];
      }
      assert multiset(t.undo) + multiset(t.redo) == multiset(s.undo) + multiset(s.redo);
      UndoRedoConserve(pil, t, cs[1..]);
    }
  }

  /** Recording a new image discards the redo branch: a redo right after it does nothing. */
  lemma UpdateDiscardsBranch(s: Session, img: Image)
    ensures Redo(Update(s, img)) == Update(s, img)
  {
  }

  /**
   * Presets read original_image, never the current output: the image a
   * preset records depends only on the loaded original, so a second preset
   * does not build on the first.
   */
  lemma PresetsReadOriginal(pil: Library, s: Session, p: Preset, q: Preset)
    requires Consistent(s) && s.original.Some?
    ensures Last(ApplyPreset(pil, s, p).undo) == PresetImage(pil, p, s.original.value)
    ensures ApplyPreset(pil, ApplyPreset(pil, s, p), q).output == Some(PresetImage(pil, q, s.original.value))
    ensures ApplyPreset(pil, ApplyPreset(pil, s, p), q).undo ==
      s.undo + [PresetImage(pil, p, s.original.value), PresetImage(pil, q, s.original.value)]
  {
  }

  /** A preset before any image is loaded changes nothing. */
  lemma PresetBeforeLoad(pil: Library, s: Session, p: Preset, answer: Option<real>)
    requires s.original.None?
    ensures ApplyPreset(pil, s, p) == s && ApplyGamma(pil, s, answer) == s
  {
  }

  /** The adjust_* handlers read the CURRENT output, so adjustments compose. */
  lemma AdjustmentsCompose(pil: Library, s: Session, k1: Enhancer, f1: real, k2: Enhancer, f2: real)
    requires Consistent(s) && s.original.Some? && f1 != 0.0 && f2 != 0.0
    ensures Adjust(pil, Adjust(pil, s, k1, Some(f1)), k2, Some(f2)).output ==
      Some(pil.enhance(k2, pil.enhance(k1, Last(s.undo), f1), f2))
  {
  }

  /** Load A, record B and then C, undo three times (the third at the boundary), redo twice. */
  lemma Walkthrough(pil: Library, a: Image, p: Preset, k: Enhancer, f: real)
    requires f != 0.0
    ensures var b := PresetImage(pil, p, a);
            var c := pil.enhance(k, b, f);
            var s2 := Adjust(pil, ApplyPreset(pil, Select(Initial, "a.png", Some(a)), p), k, Some(f));
            && s2.output == Some(c)
            && Undo(s2).output == Some(b)
            && Undo(Undo(s2)).output == Some(a)
            && Undo(Undo(Undo(s2))) == Undo(Undo(s2))
            && Redo(Undo(Undo(Undo(s2)))).output == Some(b)
            && Redo(Redo(Undo(Undo(Undo(s2))))) == s2
  {
    var s2 := Adjust(pil, ApplyPreset(pil, Select(Initial, "a.png", Some(a)), p), k, Some(f));
    UndoThenRedo(s2);
    UndoThenRedo(Undo(s2));
  }

  /** After an undo, a new edit discards the undone image: redo is then a no-op. */
  lemma BranchDiscarded(pil: Library, a: Image, p: Preset, q: Preset)
    ensures var s := ApplyPreset(pil, Undo(ApplyPreset(pil, Loaded(a), p)), q);
            && s.output == Some(PresetImage(pil, q, a))
            && s.undo == [a, PresetImage(pil, q, a)]
            && Redo(s) == s
  {
  }

  // ---------------------------------------------------------------------
  // The two defects of src/gui.py and their corrections
  // ---------------------------------------------------------------------

  /**
   * As written, choosing a file that fails to open after an image is loaded
   * empties both stacks while the old image stays on screen and stays the
   * presets' source: the session is no longer consistent.
   */
  lemma SelectFailureEmptiesHistory(s: Session, path: string)
    requires Consistent(s) && s.original.Some? && path != ""
    ensures SelectAsWritten(s, path, None).undo == []
    ensures SelectAsWritten(s, path, None).output == s.output && s.output.Some?
    ensures !Consistent(SelectAsWritten(s, path, None))
  {
  }

  /** Corrected, a failed open leaves the whole session as it was, so history survives. */
  lemma SelectFailureKeepsHistory(s: Session, path: string)
    requires Consistent(s)
    ensures Select(s, path, None) == s
    ensures SelectError(path, None).Some? <==> path != ""
  {
  }

  /** A handler that raises leaves the session exactly as it was. */
  lemma ErrorsChangeNothing(pil: Library, s: Session, path: string, decoded: Option<Image>, kind: Enhancer, answer: Option<real>)
    ensures SelectError(path, decoded).Some? ==> Select(s, path, decoded) == s
    ensures AdjustError(s, answer).Some? ==> Adjust(pil, s, kind, answer) == s
  {
  }

  /** On every other input the corrected select agrees with the code as written. */
  lemma SelectAgreesOnSuccess(s: Session, path: string, decoded: Option<Image>)
    requires path == "" || decoded.Some?
    ensures Select(s, path, decoded) == SelectAsWritten(s, path, decoded)
  {
  }

  /**
   * As written, "Download Image" writes the loaded original whatever edits
   * followed, as long as no other file is selected.
   */
  lemma {:induction false} DownloadIgnoresEdits(pil: Library, a: Image, cs: seq<Command>)
    requires forall i :: 0 <= i < |cs| ==> !IsSelect(cs[i])
    ensures SavedAsWritten(Run(pil, Loaded(a), cs)) == Some(a)
    decreases |cs|
  {
    if cs != [] {
      OriginalKeptWithoutSelect(pil, Loaded(a), a, cs);
    }
  }

  lemma {:induction false} OriginalKeptWithoutSelect(pil: Library, s: Session, a: Image, cs: seq<Command>)
    requires s.original == Some(a)
    requires forall i :: 0 <= i < |cs| ==> !IsSelect(cs[i])
    ensures Run(pil, s, cs).original == Some(a)
    decreases |cs|
  {
    if cs != [] {
      assert !IsSelect(cs[0]);
      OriginalKeptWithoutSelect(pil, Step(pil, s, cs[0]), a, cs[1..]);
    }
  }

  /** A concrete instance: load `a`, denoise; the screen shows the denoised image but the download is `a`. */
  lemma DownloadAfterDenoise(pil: Library, a: Image)
    ensures var s := ApplyPreset(pil, Select(Initial, "a.png", Some(a)), Denoise);
            SavedAsWritten(s) == Some(a) && s.output == Some(pil.filter(a, MedianFilter(3)))
  {
  }

  /** Corrected, the download is the image on screen after any sequence of presses. */
  lemma DownloadShowsEdits(pil: Library, s: Session, cs: seq<Command>)
    requires Consistent(s) && s.original.Some?
    ensures Run(pil, s, cs).undo != [] && Saved(Run(pil, s, cs)) == Some(Last(Run(pil, s, cs).undo))
  {
    RunConsistent(pil, s, cs);
  }
}
