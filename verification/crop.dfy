/** `center_crop` of src/datasets/image_dataset.h: the middle
    `out_width` x `out_height` rectangle of an image, taken as an OpenCV
    region of interest. The pixels are left abstract (`T`); only their
    positions matter. */
module Crop {
  import opened Wrappers

  /** An image of `rows` rows of `cols` pixels each (a `cv::Mat`). */
  datatype Mat<T> = Mat(rows: nat, cols: nat, data: seq<seq<T>>)

  predicate Valid<T>(m: Mat<T>)
  {
    |m.data| == m.rows && forall r :: 0 <= r < |m.data| ==> |m.data[r]| == m.cols
  }

  /** C++ `int` division, which truncates toward zero (Dafny's `/` floors
      for a positive divisor): the remainder takes the sign of the
      dividend. */
  function TruncDiv(a: int, b: int): (q: int)
    requires b > 0
    ensures a >= 0 ==> 0 <= a - q * b < b
    ensures a < 0 ==> -b < a - q * b <= 0
  {
    if a >= 0 then a / b else -((-a) / b)
  }

  /** The region `(*image)(cv::Rect(x, y, w, h))`: OpenCV asserts that the
      rectangle lies inside the image and then views those pixels. */
  function Roi<T>(m: Mat<T>, x: int, y: int, w: int, h: int): (r: Result<Mat<T>>)
    requires Valid(m)
    ensures r.Ok? <==> 0 <= x && 0 <= w && x + w <= m.cols && 0 <= y && 0 <= h && y + h <= m.rows
    ensures r.Err? ==> r.error == AssertionFailed
    ensures r.Ok? ==>
      && Valid(r.value) && r.value.rows == h && r.value.cols == w
      && forall i, j :: 0 <= i < h && 0 <= j < w ==> r.value.data[i][j] == m.data[y + i][x + j]
  {
    if 0 <= x && 0 <= w && x + w <= m.cols && 0 <= y && 0 <= h && y + h <= m.rows then
      Ok(Mat(h, w, seq(h, i requires 0 <= i < h => m.data[y + i][x .. x + w])))
    else
      Err(AssertionFailed)
  }

  /** `center_crop(image, out_height, out_width, cropped)`. The crop
      succeeds exactly when the requested size fits inside the image; a
      larger request trips OpenCV's assertion (a request one pixel wider
      than the image gives `left == 0` under truncation, and the rectangle
      still overflows by one column). A crop is `outHeight` x `outWidth`,
      its pixels are the image's shifted by `left = (cols - outWidth) / 2`
      and `top = (rows - outHeight) / 2`, and it is centred: the margins on
      the two sides differ by at most one pixel, the extra one on the right
      or at the bottom. */
  function CenterCrop<T>(m: Mat<T>, outHeight: int, outWidth: int): (r: Result<Mat<T>>)
    requires Valid(m)
    ensures r.Ok? <==> 0 <= outWidth <= m.cols && 0 <= outHeight <= m.rows
    ensures r.Err? ==> r.error == AssertionFailed
    ensures r.Ok? ==>
      var left := (m.cols - outWidth) / 2;
      var top := (m.rows - outHeight) / 2;
      && Valid(r.value) && r.value.rows == outHeight && r.value.cols == outWidth
      && (m.cols - outWidth - left == left || m.cols - outWidth - left == left + 1)
      && (m.rows - outHeight - top == top || m.rows - outHeight - top == top + 1)
      && forall i, j :: 0 <= i < outHeight && 0 <= j < outWidth ==>
           r.value.data[i][j] == m.data[top + i][left + j]
  {
    var left := TruncDiv(m.cols - outWidth, 2);
    var top := TruncDiv(m.rows - outHeight, 2);
    Roi(m, left, top, outWidth, outHeight)
  }
}
