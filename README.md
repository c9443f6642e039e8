# LUNARZ image editor: a Dafny model of its editing history, batch runner and edge detector

LUNARZ is a desktop image editor written in Python. The user selects an image and applies preset operations: denoise, histogram equalization, gamma correction, unsharp mask and edge detection. The user can also adjust brightness, contrast, sharpness and saturation. Undo and Redo step through the edit history, and the result can be downloaded. Beside the editor, the repository has a batch runner that applies one function to many files, and an OpenCV edge detector.

This project models three parts of that program and proves properties about them:

- **Editing history** (`src/gui.py`).
  - Module `EditHistory` describes the state of the editor window as a value, a `Session`. The session holds the processor's `original_image`, the undo and redo stacks, and `output_image`. Each button handler is a function from one session to the next.
  - Module `Gui` models the two Python classes as Dafny classes with the fields the history uses (not the Tk widgets and colours; `ImageProcessor` also holds the PIL library it calls). Their methods update the objects' fields, reassigning the stacks as immutable `seq` values, and each method is proved to produce the session the matching function describes. Three client methods (`Gui.EditAndNavigate`, `Gui.Navigate`, `Gui.ReopenAndDownload`) drive the classes through the same load, edit, undo and redo sequence as `EditHistory.Walkthrough`, using only the methods' contracts; they model no code of their own.
  - Proved properties:
    - With the corrected selection, the output always mirrors the top of the undo stack. As written, a failed open breaks this (see Findings).
    - With the corrected selection, once an image is loaded the undo stack is never empty and its first entry is the image as loaded.
    - Undo and redo conserve the entries on the two stacks.
    - An undo that moves an entry, followed by a redo, restores the session. So does a redo that moves an entry, followed by an undo.
    - A new edit discards the redo branch.
    - Presets always read the loaded original. The adjust handlers read the current output.
- **Batch runner** (`src/batch_processing.py`).
  - Module `Batch` models `process_batch` as a loop that isolates per-file failures. It models `load_images_from_directory` as nested loops that filter on a case-insensitive suffix.
  - Module `Paths` models the POSIX `os.path.basename` and `os.path.join`, `str.lower` and `str.endswith`.
- **Edge detection** (`src/edge_detection.py`).
  - Module `EdgeDetection` models `apply_edge_detection` as a function that returns a `Result`. It proves the order of the error checks, the exact match on the method name, when the blur runs, and which parameters each detector reads. It also proves that the output is one 8-bit channel.

Pixel contents are not modelled:

- An image is the abstract type `Pil.Image`, and an OpenCV array's data is the abstract type `EdgeDetection.Pixels`.
- Every PIL, OpenCV and NumPy call is a function that the model does not interpret. These functions are supplied as the fields of `Pil.Library` and `EdgeDetection.Cv`.
- The constants the program passes to those libraries are modelled exactly. `Pil.PresetImage` is the table of the PIL calls each preset makes on the original image (src/gui.py:17-41):
  - denoise: `MedianFilter(size=3)`;
  - histogram equalization: convert to mode "L", then multiply every value by 1.5;
  - gamma correction: a lookup table, `Pil.GammaTable`, with 256 entries, entry x being 255 * (x/255)^gamma;
  - unsharp mask: `UnsharpMask(radius=2, percent=150, threshold=3)`;
  - edge detection: the `FIND_EDGES` filter.

Inputs from the outside world are parameters:

- the path the file dialog returns (empty when it is cancelled);
- whether the chosen file could be opened and read in full, as the decoded image or `None` (`Image.open` followed by `copy()` in the editor; `cv2.imread` in the edge detector);
- the number a prompt returns;
- the exceptions raised by the processing function, by `save` and by `os.makedirs`;
- the triples that `os.walk` yields.

Printed lines are returned as a log.

Three behaviours of the code are easy to miss, and the model keeps them as written:

- The preset operations compute from the loaded original, not from the current image (src/gui.py:17-41).
- `process_batch` returns only the successful results, not one result per path (src/batch_processing.py:20-34).
- The editor's "Edge Detection" button uses PIL's `FIND_EDGES` filter (src/gui.py:38-41), not `apply_edge_detection`.

## Model

| member | source | states |
|---|---|---|
| `EditHistory.Loaded` | src/gui.py:196-200 | after a successful load, the image is the only undo entry and the output, the redo stack is empty, and the session is consistent |
| `EditHistory.Select` | src/gui.py:194-202 | corrected selection: an empty path (cancelled dialog) or a file that fails to open changes nothing; otherwise both stacks are reset and the opened image is the sole undo entry and the output; consistency is preserved |
| `EditHistory.SelectAsWritten` | src/gui.py:194-202 | selection as written: an empty path changes nothing; a file that fails to open empties both stacks but keeps the original and the output; a successful open gives the loaded session; on a cancelled dialog or a successful open it equals the corrected `Select` |
| `EditHistory.ErrorsChangeNothing` | src/gui.py:194-258 | with the corrected selection, a selection that raises (a non-empty path that fails to open) leaves the session unchanged; an adjust handler that raises leaves it unchanged too |
| `EditHistory.Update` | src/gui.py:261-265 | the new image becomes the output and is appended to the undo stack; the redo stack is emptied; consistency is kept once an image is loaded |
| `EditHistory.Undo` | src/gui.py:267-271 | the original is unchanged and so is the total size of the two stacks; with at most one undo entry nothing changes; with more, the top moves onto the redo stack and the output becomes the new top; consistency is kept |
| `EditHistory.Redo` | src/gui.py:273-277 | the original is unchanged and so is the total size of the two stacks; with an empty redo stack nothing changes; otherwise its top becomes the output and is appended to the undo stack; consistency is kept |
| `EditHistory.ApplyPreset` | src/gui.py:204-212 | before a load, a preset button changes nothing; after one, it records the preset applied to the original, empties the redo stack, and keeps consistency |
| `EditHistory.ApplyGamma` | src/gui.py:214-219 | a falsy answer, or no loaded image, changes nothing; otherwise the original mapped through the 256-entry gamma table becomes the output and the new undo top, the redo stack is emptied and the original kept; consistency is kept |
| `EditHistory.Adjust` | src/gui.py:232-258 | a falsy answer, or no output yet, changes nothing; otherwise the current output enhanced by the factor becomes the output and the new undo top, the redo stack is emptied and the original kept; consistency is kept |
| `EditHistory.AdjustError` | src/gui.py:232-258 | in a consistent session, an adjust handler raises exactly when the dialog answer is truthy and no image has been loaded |
| `EditHistory.SavedAsWritten` | src/gui.py:43-45 | download as written: in a consistent session with an image loaded, what is written is the first undo entry, the image as loaded; before any load nothing is written |
| `EditHistory.Saved` | src/gui.py:285-289 | corrected download: what is written is the top of the undo stack, the image on screen; before any load nothing is written |
| `EditHistory.StepConsistent` | src/gui.py:194-277 | with the corrected selection, every handler (select, the presets, gamma, the adjustments, undo, redo) preserves consistency |
| `EditHistory.RunConsistent` | src/gui.py:194-277 | with the corrected selection, after any sequence of button presses the output equals the last undo entry, and once an image is loaded the undo stack is never empty and starts with the image as loaded |
| `EditHistory.LoadedStaysLoaded` | src/gui.py:12-15 | once original_image is set, no sequence of presses unsets it |
| `EditHistory.UndoThenRedo` | src/gui.py:267-277 | an undo that moves an entry, followed by a redo, restores both stacks and the output |
| `EditHistory.RedoThenUndo` | src/gui.py:267-277 | a redo that moves an entry, followed by an undo, restores both stacks and the output |
| `EditHistory.UndoRedoConserve` | src/gui.py:267-277 | any sequence of undos and redos keeps the total size and the multiset of entries on the two stacks |
| `EditHistory.UpdateDiscardsBranch` | src/gui.py:261-265 | after recording a new image, redo is a no-op |
| `EditHistory.PresetsReadOriginal` | src/gui.py:17-41 | a preset records its operation applied to the original, so a second preset does not build on the first |
| `EditHistory.PresetBeforeLoad` | src/gui.py:204-229 | before any image is loaded, the preset and gamma handlers leave the session unchanged |
| `EditHistory.AdjustmentsCompose` | src/gui.py:232-258 | adjustments read the current output, so two adjustments compose |
| `EditHistory.Walkthrough` | src/gui.py:194-277 | load A, record B and C, undo three times (the third at the boundary), redo twice: the outputs are B, A, A, B, C |
| `EditHistory.BranchDiscarded` | src/gui.py:261-277 | an edit after an undo drops the undone image, and redo then does nothing |
| `EditHistory.SelectFailureEmptiesHistory` | src/gui.py:194-200 | as written, a failed open after a load empties the undo stack, keeps the old output and breaks consistency |
| `EditHistory.SelectFailureKeepsHistory` | src/gui.py:194-200 | corrected, a failed open leaves the session unchanged and raises exactly when the path is non-empty |
| `EditHistory.SelectAgreesOnSuccess` | src/gui.py:194-200 | the corrected selection equals the written one on cancelled dialogs and on successful opens |
| `EditHistory.DownloadIgnoresEdits` | src/gui.py:43-45 | as written, the download is the loaded original after any presses that select no other file |
| `EditHistory.OriginalKeptWithoutSelect` | src/gui.py:12-15 | original_image changes only when a file is selected |
| `EditHistory.DownloadAfterDenoise` | src/gui.py:43-45 | as written, after load A and denoise, the screen shows the denoised image but A is written |
| `EditHistory.DownloadShowsEdits` | src/gui.py:285-289 | with the corrected selection and download, the download is the top of the undo stack after any sequence of presses |
| `Gui.ImageProcessor.constructor` | src/gui.py:8-10 | both image fields start unset |
| `Gui.ImageProcessor.SelectImage` | src/gui.py:12-15 | a failed open raises and assigns nothing; otherwise original_image and output_image are both the opened image |
| `Gui.ImageProcessor.ApplyPreset` | src/gui.py:17-41 | the preset's PIL call on original_image, or None when nothing is loaded |
| `Gui.ImageProcessor.SaveOutputImage` | src/gui.py:43-45 | the image written is original_image |
| `Gui.ImageApp.constructor` | src/gui.py:49-54 | empty stacks, no output, a fresh processor |
| `Gui.ImageApp.SelectImage` | src/gui.py:194-202 | the new state is `Select` of the old, and the error is `SelectError` |
| `Gui.ImageApp.UpdateImage` | src/gui.py:261-265 | the new state is `Update` of the old |
| `Gui.ImageApp.Undo` | src/gui.py:267-271 | the new state is `Undo` of the old; the object stays valid |
| `Gui.ImageApp.Redo` | src/gui.py:273-277 | the new state is `Redo` of the old; the object stays valid |
| `Gui.ImageApp.RunPreset` | src/gui.py:204-229 | the new state is `ApplyPreset` of the old |
| `Gui.ImageApp.GammaCorrection` | src/gui.py:214-219 | a falsy answer changes nothing; otherwise the gamma preset is recorded |
| `Gui.ImageApp.Adjust` | src/gui.py:232-258 | the new state is `Adjust` of the old, and the error is `AdjustError` |
| `Gui.ImageApp.DownloadImage` | src/gui.py:285-289 | corrected: a cancelled dialog writes nothing; otherwise the top of the undo stack is written |
| `Paths.NameStart` | src/batch_processing.py:26 | the index one past the last '/', with no '/' after it |
| `Paths.Basename` | src/batch_processing.py:26 | the basename has no '/', is a suffix of the path, and is preceded by '/' when shorter than the path |
| `Paths.NameStartSkipsName` | src/batch_processing.py:26 | appending a '/'-free tail does not move the start of the basename |
| `Paths.JoinParts` | src/batch_processing.py:27 | an absolute second component replaces the first; otherwise the result starts with the first, ends with the second, and has one '/' between them exactly when the first is non-empty and does not end in '/' |
| `Paths.BasenameOfJoin` | src/batch_processing.py:26-27 | the basename of a directory joined with a '/'-free name is that name |
| `Paths.JoinInjective` | src/batch_processing.py:26-27 | for one directory, joins with '/'-free names are equal exactly when the names are equal |
| `Paths.Lower` | src/batch_processing.py:50 | lowering keeps the length, lowers each character, and leaves no upper-case letter |
| `Paths.LowerIdempotent` | src/batch_processing.py:50 | lowering twice is lowering once |
| `Paths.LoweredMissesUpper` | src/batch_processing.py:50 | a lowered name never ends with a suffix that contains an upper-case letter |
| `Batch.SavePath` | src/batch_processing.py:26-27 | the save path is the output directory, then one '/' exactly when the directory is non-empty and does not end in '/', then the input's basename; its basename is the input's basename |
| `Batch.ProcessBatch` | src/batch_processing.py:4-34 | a failing makedirs raises and nothing is processed; otherwise the result is the successful outputs in input order, and the log has one line per path |
| `Batch.BatchLogLines` | src/batch_processing.py:21-32 | the log has one line per input path, and line i reports path i |
| `Batch.ProcessedAppend` | src/batch_processing.py:21-32 | the results for a concatenation are the results for each part in turn |
| `Batch.FailureIsolated` | src/batch_processing.py:22-32 | a path whose processing raises contributes nothing and does not affect the others |
| `Batch.ProcessedBound` | src/batch_processing.py:20-34 | at most one result per path, and exactly one each when nothing raises |
| `Batch.ProcessedMembers` | src/batch_processing.py:20-24 | an image is in the result exactly when processing some input path returned it |
| `Batch.SavePathsCollide` | src/batch_processing.py:26-27 | two inputs map to the same save path exactly when their basenames are equal |
| `Batch.LoadImagesFromDirectory` | src/batch_processing.py:36-52 | the result is every kept file joined with its walk root, in visitation order |
| `Batch.KeptInMembers` | src/batch_processing.py:49-51 | a path comes from one directory exactly when it is that root joined with one of its kept files |
| `Batch.CollectedMembers` | src/batch_processing.py:48-51 | a path is collected exactly when it is kept from one of the walked directories |
| `Batch.KeptBySuffix` | src/batch_processing.py:50 | a file is kept exactly when some extension equals the lowered tail of the file name of the same length |
| `Batch.KeptIgnoresCase` | src/batch_processing.py:50 | whether a name is kept does not depend on its case |
| `Batch.UpperExtensionNeverKeeps` | src/batch_processing.py:50 | an extension that contains an upper-case letter matches no file, because only the file name is lowered |
| `Batch.UpperCaseNameKept` | src/batch_processing.py:36-50 | with the default extensions (jpg, jpeg, png), "IMG.JPG" is kept |
| `Batch.NoDotNameKept` | src/batch_processing.py:36-50 | no dot is needed: "photojpeg" is kept |
| `Batch.OtherExtensionDropped` | src/batch_processing.py:36-50 | "scan.gif" is not kept |
| `EdgeDetection.Message` | src/edge_detection.py:41-42 | the unsupported-method message contains the method name |
| `EdgeDetection.ApplyEdgeDetection` | src/edge_detection.py:5-44 | an unreadable image fails with the load error; a readable one fails exactly when the method is not Canny, Sobel or Laplacian, and the error names that method; a success is one 8-bit channel |
| `EdgeDetection.Detect` | src/edge_detection.py:31-42 | the dispatch fails exactly when the method is not Canny, Sobel or Laplacian, with an error naming the method; a success is 8-bit, and single-channel on a single-channel input |
| `EdgeDetection.MethodDispatch` | src/edge_detection.py:25-40 | on a readable image: Canny runs with both thresholds; Sobel is the magnitude of the x and y first derivatives in 64-bit floats, cast to 8 bits; Laplacian is the absolute second derivative, cast to 8 bits; each on the grey image, blurred when asked |
| `EdgeDetection.LoadCheckedFirst` | src/edge_detection.py:21-23 | an unreadable image raises "Error loading image" whatever the method, even an invalid one |
| `EdgeDetection.MethodIsCaseSensitive` | src/edge_detection.py:31-42 | "canny" is rejected as unsupported |
| `EdgeDetection.BlurOnlyWhenAsked` | src/edge_detection.py:25-28 | without blur, the grayscale image goes to the detector untouched; with blur, it is blurred with a (k, k) window and sigma 0 |
| `EdgeDetection.CannyIgnoresKernelSize` | src/edge_detection.py:31-32 | without blur, Canny's result does not depend on kernel_size |
| `EdgeDetection.GradientsIgnoreThresholds` | src/edge_detection.py:33-40 | the Sobel and Laplacian results do not depend on the thresholds |
| `EdgeDetection.Defaults` | src/edge_detection.py:5 | by default, the result is Canny with thresholds 100 and 200 on the unblurred grayscale image |

## Findings

| source | as written | input that shows it | evidently intended | confidence | as-written member | corrected member |
|---|---|---|---|---|---|---|
| src/gui.py:196-200 | `select_image` clears both stacks before `Image.open` runs | load A, then choose a file that fails to open: the stacks are empty, A is still on screen, and undo history is lost | open the file first, and touch the history only on success | not executed; medium | `EditHistory.SelectFailureEmptiesHistory` | `EditHistory.SelectFailureKeepsHistory` |
| src/gui.py:43-45 | "Download Image" saves `ImageProcessor.output_image`, which only `select_image` assigns (a copy of the original) | load A, denoise, download: A is written, not the denoised image | save the image on screen, the app's `output_image` | not executed; high | `EditHistory.DownloadAfterDenoise` | `EditHistory.DownloadShowsEdits` |

`Gui.ImageApp.SelectImage` and `Gui.ImageApp.DownloadImage` implement the corrected behaviour. `EditHistory.SelectAsWritten` and `EditHistory.SavedAsWritten` keep the code as written.

## Left out

- Tkinter widgets, canvases, scrollbars, `show_image` and the dialogs are left out. The dialogs' answers are parameters: the chosen path (empty when cancelled), the decoded image and the prompted number.
- The 0.1–5.0 and 0.1–2.0 bounds on the prompts are left out, since the dialog enforces them. The handlers' own truthiness test is modelled: `None` and `0.0` do nothing.
- `run_cnn_enhancer` and `run_cnn_script` are left out: they launch subprocesses and threads.
- cnn.py and src/main.py are not part of this model.
- Pixel mathematics is left out. PIL, OpenCV and NumPy calls are uninterpreted and treated as total, so their own exceptions are not modelled. Examples are OpenCV rejecting an even kernel size, and PIL rejecting a lookup table for an unsupported mode.
- The model does not claim that gamma 1.0 is the identity.
- `np.uint8` out-of-range float behaviour is left out. So is floating-point rounding: the gamma exponent is a `real`, and `pow` is uninterpreted.
- `Image.copy()` is modelled as the same value, because no image is changed in place anywhere in the program. Whether two separate copies are distinct objects is not modelled.
- The truthiness of a PIL image (`if image:`) is modelled as "is not None".
- `os.makedirs`, `os.walk`, `Image.save` and `print` are left out as effects. They become parameters: an optional makedirs error, the walk's triples in the order `os.walk` yields them, and a save function that may return an error. The printed text is returned as a log.
- `Batch.ProcessBatch`: `process` is a mathematical function of the path, so a process function that keeps state between calls is not modelled. Neither is the file system linking saves to later reads: an input inside `output_dir` whose basename repeats an earlier input's is overwritten by the earlier save before it is read. `Batch.FailureIsolated` holds only under this abstraction.
- `Batch.ProcessBatch`: the makedirs outcome is a parameter independent of `outputDir`. In Python `os.makedirs("", exist_ok=True)` always raises, so with an empty `output_dir` the loop never runs; the model does not tie the two and lets callers pass an empty `outputDir` without an error.
- `process_batch` passes its extra `*args` and `**kwargs` straight to `process_function`. In the model they are part of the `process` function.
- `except Exception` does not catch `BaseException` subclasses such as `KeyboardInterrupt`. Those are left out.
- `EditHistory.SelectAsWritten`: a file that `Image.open` opens but whose pixel data fails to load in `copy()` (a truncated or corrupt file) is modelled like one that fails to open. In the code, line 13 of src/gui.py has already replaced `original_image` with the unloadable file while `output_image` keeps the old copy, so later presets raise and a download writes the old image; the model keeps the old original instead.
- `Gui.ImageProcessor.SelectImage`: opening and copying are one atomic step, so a failure assigns no field. The code assigns `original_image` (src/gui.py:13) before `copy()` (line 14) can raise, which the model does not capture; `Gui.ImageApp.SelectImage` leaving the session unchanged on failure rests on this.
- `Paths.Lower`: only ASCII A–Z are lowered. Python's `str.lower` also lowers other Unicode letters.
- `Paths.Join`, `Paths.Basename`: only POSIX path rules are modelled, not Windows separators or drive letters.
- `Image.fromarray` at src/edge_detection.py:44 is modelled by returning the array itself. The model proves that the array is single-channel 8-bit, which is the shape PIL maps to mode "L".
