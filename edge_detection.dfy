/**
 * src/edge_detection.py: apply_edge_detection.  The OpenCV and NumPy
 * kernels are uninterpreted functions on pixel data (fields of `Cv`); what
 * the model tracks exactly is the shape of every array (channel count and
 * sample type), which call runs, with which arguments, and in which order
 * the errors are raised.
 */
module EdgeDetection {
  import opened Wrappers

  /** Pixel data of an array; its values are not modelled. */
  type Pixels

  /** Sample types: 8-bit unsigned (uint8) and 64-bit float (cv2.CV_64F). */
  datatype Depth = U8 | F64

  /** A NumPy array as OpenCV sees it. */
  datatype Mat = Mat(channels: nat, depth: Depth, pixels: Pixels)

  /** The OpenCV and NumPy operations, on pixel data. */
  datatype Cv = Cv(
    imread: string -> Option<Pixels>,              // None when the file cannot be read
    bgrToGray: Pixels -> Pixels,                    // cvtColor(..., COLOR_BGR2GRAY)
    gaussianBlur: (Pixels, int, int, int) -> Pixels, // (src, ksize width, ksize height, sigma)
    canny: (Pixels, int, int) -> Pixels,
    sobel: (Pixels, int, int, int) -> Pixels,      // (src, dx, dy, ksize), 64-bit output
    magnitude: (Pixels, Pixels) -> Pixels,
    laplacian: (Pixels, int) -> Pixels,            // (src, ksize), 64-bit output
    absolute: Pixels -> Pixels,
    toUint8: Pixels -> Pixels)

  // The wrappers below give each call the shape OpenCV documents for it.

  /** cv2.imread: a three-channel 8-bit BGR array, or None. */
  function ImRead(cv: Cv, path: string): Option<Mat>
  {
    match cv.imread(path)
    case None => None
    case Some(px) => Some(Mat(3, U8, px))
  }

  function CvtColorGray(cv: Cv, m: Mat): Mat
  {
    Mat(1, U8, cv.bgrToGray(m.pixels))
  }

  function GaussianBlur(cv: Cv, m: Mat, kw: int, kh: int, sigma: int): Mat
  {
    m.(pixels := cv.gaussianBlur(m.pixels, kw, kh, sigma))
  }

  function Canny(cv: Cv, m: Mat, lower: int, upper: int): Mat
  {
    Mat(1, U8, cv.canny(m.pixels, lower, upper))
  }

  function Sobel64F(cv: Cv, m: Mat, dx: int, dy: int, ksize: int): Mat
  {
    Mat(m.channels, F64, cv.sobel(m.pixels, dx, dy, ksize))
  }

  function Magnitude(cv: Cv, x: Mat, y: Mat): Mat
  {
    Mat(x.channels, F64, cv.magnitude(x.pixels, y.pixels))
  }

  function Laplacian64F(cv: Cv, m: Mat, ksize: int): Mat
  {
    Mat(m.channels, F64, cv.laplacian(m.pixels, ksize))
  }

  function Absolute(cv: Cv, m: Mat): Mat
  {
    m.(pixels := cv.absolute(m.pixels))
  }

  function Uint8(cv: Cv, m: Mat): Mat
  {
    Mat(m.channels, U8, cv.toUint8(m.pixels))
  }

  /** The exceptions apply_edge_detection raises. */
  datatype EdgeError = LoadError | UnsupportedMethod(name: string)

  /** The ValueError message of each error; an unsupported method's message names it. */
  function Message(e: EdgeError): (m: string)
    ensures e.UnsupportedMethod? ==> |m| > 20 + |e.name| && m[20..20 + |e.name|] == e.name
  {
    match e
    case LoadError => "Error loading image"
    case UnsupportedMethod(name) =>
      "Unsupported method: " + name + ". Choose 'Canny', 'Sobel', or 'Laplacian'."
  }

  const Methods: set<string> := {"Canny", "Sobel", "Laplacian"}

  /** The grayscale image the detector receives: blurred with a kernelSize x kernelSize window when requested. */
  function DetectorInput(cv: Cv, image: Mat, applyBlur: bool, kernelSize: int): Mat
  {
    var gray := CvtColorGray(cv, image);
    if applyBlur then GaussianBlur(cv, gray, kernelSize, kernelSize, 0) else gray
  }

  /** The detector branch chosen by exact, case-sensitive comparison of the method name. */
  function Detect(cv: Cv, gray: Mat, methodName: string, lowerThresh: int, upperThresh: int, kernelSize: int): (r: Result<Mat, EdgeError>)
    ensures r.Failure? <==> methodName !in Methods
    ensures r.Failure? ==> r.error == UnsupportedMethod(methodName)
    ensures r.Success? ==> r.value.depth == U8 && (gray.channels == 1 ==> r.value.channels == 1)
  {
    if methodName == "Canny" then
      Success(Canny(cv, gray, lowerThresh, upperThresh))
    else if methodName == "Sobel" then
      var sobelx := Sobel64F(cv, gray, 1, 0, kernelSize);
      var sobely := Sobel64F(cv, gray, 0, 1, kernelSize);
      Success(Uint8(cv, Magnitude(cv, sobelx, sobely)))
    else if methodName == "Laplacian" then
      Success(Uint8(cv, Absolute(cv, Laplacian64F(cv, gray, kernelSize))))
    else
      Failure(UnsupportedMethod(methodName))
  }

  /**
   * apply_edge_detection, with the source's defaults.  The result array is
   * what Image.fromarray turns into the returned image; a single-channel
   * 8-bit array becomes a mode "L" image.
   */
  function ApplyEdgeDetection(cv: Cv, imagePath: string, methodName: string := "Canny",
                              lowerThresh: int := 100, upperThresh: int := 200,
                              applyBlur: bool := false, kernelSize: int := 3): (r: Result<Mat, EdgeError>)
    ensures ImRead(cv, imagePath).None? ==> r == Failure(LoadError)
    ensures ImRead(cv, imagePath).Some? ==> (r.Failure? <==> methodName !in Methods)
    ensures r.Failure? && methodName in Methods ==> r.error == LoadError
    ensures r.Failure? && r.error.UnsupportedMethod? ==> r.error.name == methodName
    ensures r.Success? ==> r.value.channels == 1 && r.value.depth == U8
  {
    match ImRead(cv, imagePath)
    case None => Failure(LoadError)
    case Some(image) =>
      Detect(cv, DetectorInput(cv, image, applyBlur, kernelSize), methodName, lowerThresh, upperThresh, kernelSize)
  }

  /** An unreadable image is reported before the method name is examined, even an invalid one. */
  lemma LoadCheckedFirst(cv: Cv, imagePath: string, methodName: string, lo: int, hi: int, blur: bool, k: int)
    requires cv.imread(imagePath).None?
    ensures ApplyEdgeDetection(cv, imagePath, methodName, lo, hi, blur, k) == Failure(LoadError)
    ensures Message(LoadError) == "Error loading image"
  {
  }

  /**
   * For a readable image, each supported method runs its own OpenCV pipeline
   * on the grey (and, when asked, blurred) image: Canny with both thresholds;
   * Sobel as the magnitude of the x and y first derivatives in 64-bit floats,
   * then cast to 8 bits; Laplacian as the absolute second derivative, then
   * cast to 8 bits.
   */
  lemma MethodDispatch(cv: Cv, imagePath: string, lo: int, hi: int, blur: bool, k: int)
    requires ImRead(cv, imagePath).Some?
    ensures var g := DetectorInput(cv, ImRead(cv, imagePath).value, blur, k);
            ApplyEdgeDetection(cv, imagePath, "Canny", lo, hi, blur, k) == Success(Canny(cv, g, lo, hi))
    ensures var g := DetectorInput(cv, ImRead(cv, imagePath).value, blur, k);
            ApplyEdgeDetection(cv, imagePath, "Sobel", lo, hi, blur, k) ==
            Success(Uint8(cv, Magnitude(cv, Sobel64F(cv, g, 1, 0, k), Sobel64F(cv, g, 0, 1, k))))
    ensures var g := DetectorInput(cv, ImRead(cv, imagePath).value, blur, k);
            ApplyEdgeDetection(cv, imagePath, "Laplacian", lo, hi, blur, k) ==
            Success(Uint8(cv, Absolute(cv, Laplacian64F(cv, g, k))))
  {
  }

  /** The comparison is case-sensitive: "canny" is rejected, and the message names it. */
  lemma MethodIsCaseSensitive(cv: Cv, imagePath: string)
    requires cv.imread(imagePath).Some?
    ensures ApplyEdgeDetection(cv, imagePath, "canny") == Failure(UnsupportedMethod("canny"))
  {
    assert "canny" !in Methods;
  }

  /** Without blur the grayscale conversion goes to the detector untouched; with blur, a (k, k) window with sigma 0. */
  lemma BlurOnlyWhenAsked(cv: Cv, image: Mat, k: int)
    ensures DetectorInput(cv, image, false, k) == CvtColorGray(cv, image)
    ensures DetectorInput(cv, image, true, k) == GaussianBlur(cv, CvtColorGray(cv, image), k, k, 0)
  {
  }

  /** Canny reads only the thresholds: without blur the kernel size does not matter. */
  lemma CannyIgnoresKernelSize(cv: Cv, imagePath: string, lo: int, hi: int, k1: int, k2: int)
    ensures ApplyEdgeDetection(cv, imagePath, "Canny", lo, hi, false, k1) ==
            ApplyEdgeDetection(cv, imagePath, "Canny", lo, hi, false, k2)
  {
  }

  /** Sobel and Laplacian read only the kernel size: the thresholds do not matter. */
  lemma GradientsIgnoreThresholds(cv: Cv, imagePath: string, methodName: string, lo1: int, hi1: int,
                                  lo2: int, hi2: int, blur: bool, k: int)
    requires methodName == "Sobel" || methodName == "Laplacian"
    ensures ApplyEdgeDetection(cv, imagePath, methodName, lo1, hi1, blur, k) ==
            ApplyEdgeDetection(cv, imagePath, methodName, lo2, hi2, blur, k)
  {
  }

  /** The defaults are Canny with thresholds 100 and 200 on the unblurred grayscale image. */
  lemma Defaults(cv: Cv, imagePath: string)
    requires ImRead(cv, imagePath).Some?
    ensures ApplyEdgeDetection(cv, imagePath) ==
            Success(Canny(cv, CvtColorGray(cv, ImRead(cv, imagePath).value), 100, 200))
  {
  }
}
