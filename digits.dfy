/**
 * Digit recognition (digits/digits.go): the choice of the most probable
 * digit from the network's output, and the preparation of a 28x28 cell
 * image as the network's input.
 *
 * The network itself (`LoadNetwork`, `nn.Evaluate`) is not part of this
 * model: `RecogniseDigit` takes the evaluation as a function parameter. An
 * image is an `array2<Byte>` indexed `[x, y]` like `GrayAt(x, y)`; writing
 * to it is writing to the pixel buffer the caller's image shares.
 */
module Digits {
  import opened Wrappers
  import opened Process

  /** The side of the square image the network reads. */
  const Side: int := 28

  // ---------------------------------------------------------------------
  // argmax

  /**
   * The reference result of `argmax`: scanning from the left, starting from
   * index 0 and value -1, an element replaces the pair only when it is
   * strictly larger.
   */
  function FirstMax(a: seq<real>): (int, real)
  {
    if |a| == 0 then (0, -1.0)
    else
      var (x, v) := FirstMax(a[..|a| - 1]);
      if a[|a| - 1] > v then (|a| - 1, a[|a| - 1]) else (x, v)
  }

  /**
   * What `argmax` returns: `(0, -1)` when no element exceeds -1 (an empty
   * slice included); otherwise the first index holding the largest value,
   * with that value.
   */
  lemma {:induction false} FirstMaxMeaning(a: seq<real>)
    ensures var (x, v) := FirstMax(a);
      && v >= -1.0
      && ((forall i :: 0 <= i < |a| ==> a[i] <= -1.0) ==> x == 0 && v == -1.0)
      && ((exists i :: 0 <= i < |a| && a[i] > -1.0) ==>
        0 <= x < |a| && a[x] == v && (forall i :: 0 <= i < |a| ==> a[i] <= v) && (forall i :: 0 <= i < x ==> a[i] < v))
  {
    if |a| > 0 {
      var init := a[..|a| - 1];
      FirstMaxMeaning(init);
      var (x, v) := FirstMax(init);
      assert forall i :: 0 <= i < |init| ==> init[i] == a[i];
      if !(exists i :: 0 <= i < |init| && init[i] > -1.0) {
        assert forall i :: 0 <= i < |init| ==> a[i] <= -1.0;
      }
    }
  }

  /** `argmax` of digits/digits.go: one pass keeping the index and value of
      the strictly largest element seen. */
  method Argmax(a: seq<real>) returns (x: int, v: real)
    ensures (x, v) == FirstMax(a)
  {
    x, v := 0, -1.0;
    for i := 0 to |a|
      invariant (x, v) == FirstMax(a[..i])
    {
      assert a[..i + 1][..i] == a[..i];
      if a[i] > v {
        x, v := i, a[i];
      }
    }
    assert a[..|a|] == a;
  }

  /** Two equal maxima: the first wins. */
  lemma ArgmaxTieExample()
    ensures FirstMax([0.2, 0.7, 0.7]) == (1, 0.7)
  {
    assert [0.2, 0.7, 0.7][..2] == [0.2, 0.7];
    assert [0.2, 0.7][..1] == [0.2];
    assert [0.2][..0] == [];
  }

  // ---------------------------------------------------------------------
  // RecogniseDigit

  /** The new value of a pixel: its inverse `255 - v` when it is darker than
      `threshold`, else 0. */
  function Inverted(v: Byte, threshold: Byte): (r: Byte)
    ensures r > 0 <==> v < threshold
    ensures r > 0 ==> r + v == 255
  {
    if v < threshold then 255 - v else 0
  }

  /** The input index of pixel `(x, y)`: the image is read column by column. */
  function InputIndex(x: int, y: int): int
  {
    x * Side + y
  }

  /** Distinct pixels go to distinct input entries, all within the input. */
  lemma InputIndexBijective(x: int, y: int, x': int, y': int)
    requires 0 <= x < Side && 0 <= y < Side && 0 <= x' < Side && 0 <= y' < Side
    ensures 0 <= InputIndex(x, y) < Side * Side
    ensures InputIndex(x, y) == InputIndex(x', y') ==> x == x' && y == y'
  {
  }

  /**
   * The loop of `RecogniseDigit`: each pixel of the 28x28 image is replaced
   * by its inverted value, and the input holds that value scaled to
   * `[0, 1]` at the pixel's index.
   */
  method BuildInput(img: array2<Byte>, threshold: Byte) returns (input: array<real>)
    requires img.Length0 == Side && img.Length1 == Side
    modifies img
    ensures fresh(input) && input.Length == Side * Side
    ensures forall i :: 0 <= i < input.Length ==> 0.0 <= input[i] <= 1.0
    ensures forall x, y :: 0 <= x < Side && 0 <= y < Side ==>
      img[x, y] == Inverted(old(img[x, y]), threshold) &&
      input[InputIndex(x, y)] == img[x, y] as real / 255.0
  {
    input := new real[Side * Side];
    var pos := 0;
    for x := 0 to Side
      invariant pos == x * Side
      invariant forall i :: 0 <= i < pos ==> 0.0 <= input[i] <= 1.0
      invariant forall x', y :: 0 <= x' < x && 0 <= y < Side ==>
        img[x', y] == Inverted(old(img[x', y]), threshold) && input[InputIndex(x', y)] == img[x', y] as real / 255.0
      invariant forall x', y :: x <= x' < Side && 0 <= y < Side ==> img[x', y] == old(img[x', y])
    {
      for y := 0 to Side
        invariant pos == x * Side + y
        invariant forall i :: 0 <= i < pos ==> 0.0 <= input[i] <= 1.0
        invariant forall x', y' :: 0 <= x' < x && 0 <= y' < Side ==>
          img[x', y'] == Inverted(old(img[x', y']), threshold) && input[InputIndex(x', y')] == img[x', y'] as real / 255.0
        invariant forall y' :: 0 <= y' < y ==>
          img[x, y'] == Inverted(old(img[x, y']), threshold) && input[InputIndex(x, y')] == img[x, y'] as real / 255.0
        invariant forall x', y' :: x <= x' < Side && 0 <= y' < Side && (x' > x || y' >= y) ==> img[x', y'] == old(img[x', y'])
      {
        var val := img[x, y];
        if val < threshold {
          val := 255 - val;
        } else {
          val := 0;
        }
        img[x, y] := val;
        input[pos] := val as real / 255.0;
        pos := pos + 1;
      }
    }
  }

  /**
   * `RecogniseDigit`: an image that is not 28x28 panics with
   * `ErrImageSize` and is left alone; otherwise every pixel is replaced by
   * its inverted value and the digit is the `argmax` of the network's
   * answer on the scaled pixels.
   */
  method RecogniseDigit(img: array2<Byte>, threshold: Byte, evaluate: seq<real> -> seq<real>)
    returns (digit: int, confidence: real, panicked: Option<Error>, ghost input: seq<real>)
    modifies img
    ensures panicked == Some(ErrImageSize) <==> !(img.Length0 == Side && img.Length1 == Side)
    ensures panicked != None ==> panicked == Some(ErrImageSize) && unchanged(img)
    ensures panicked == None ==>
      |input| == Side * Side && (forall i :: 0 <= i < |input| ==> 0.0 <= input[i] <= 1.0) &&
      (forall x, y :: 0 <= x < Side && 0 <= y < Side ==>
        img[x, y] == Inverted(old(img[x, y]), threshold) && input[InputIndex(x, y)] == img[x, y] as real / 255.0) &&
      (digit, confidence) == FirstMax(evaluate(input))
  {
    if img.Length0 != Side || img.Length1 != Side {
      return 0, 0.0, Some(ErrImageSize), [];
    }
    var buffer := BuildInput(img, threshold);
    input := buffer[..];
    digit, confidence := Argmax(evaluate(buffer[..]));
    panicked := None;
  }
}
