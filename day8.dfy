/** Day 8 (src/days/day_8/): the Space Image Format. An image is a list of
    equally sized layers of colour digits; decoding lays the layers over
    each other, the first non-transparent colour of a pixel winning. */
module Day8 {
  import opened Wrappers

  datatype Color = Black | White | Transparent

  /** `Color::from`: 0, 1 and 2 are black, white and transparent; any other
      digit is fatal. */
  function ColorFrom(digit: nat): (r: Result<Color>)
    ensures r.Ok? <==> digit <= 2
    ensures r == Ok(Black) <==> digit == 0
    ensures r == Ok(White) <==> digit == 1
    ensures r == Ok(Transparent) <==> digit == 2
    ensures r.Err? ==> r.error == InvalidColorDigit(digit)
  {
    match digit
    case 0 => Ok(Black)
    case 1 => Ok(White)
    case 2 => Ok(Transparent)
    case _ => Err(InvalidColorDigit(digit))
  }

  /** The digit a colour is written as. */
  function DigitOf(c: Color): nat {
    match c
    case Black => 0
    case White => 1
    case Transparent => 2
  }

  /** Each colour is read back from its digit. */
  lemma ColorFromDigitOf(c: Color)
    ensures ColorFrom(DigitOf(c)) == Ok(c)
  {
  }

  /** `SpaceImageLayer`: the pixels of one layer, row by row. */
  type Layer = seq<Color>

  datatype SpaceImage = SpaceImage(layers: seq<Layer>, width: nat, height: nat)

  /** Every layer has exactly `width * height` pixels. */
  predicate WellFormed(image: SpaceImage) {
    forall k :: 0 <= k < |image.layers| ==> |image.layers[k]| == image.width * image.height
  }

  /** The colours of a run of digits; the first invalid digit is fatal. */
  function Colors(digits: seq<nat>): (r: Result<Layer>)
    ensures r.Ok? ==> |r.value| == |digits|
    ensures r.Ok? ==> forall i :: 0 <= i < |digits| ==> ColorFrom(digits[i]) == Ok(r.value[i])
    ensures r.Ok? <==> forall i :: 0 <= i < |digits| ==> digits[i] <= 2
    ensures r.Err? ==> FirstInvalid(digits, r.error)
    decreases |digits|
  {
    if digits == [] then Ok([])
    else
      match ColorFrom(digits[0])
      case Err(e) =>
        assert FirstInvalidAt(digits, e, 0);
        Err(e)
      case Ok(c) =>
        assert forall i :: 1 <= i < |digits| ==> digits[i] == digits[1..][i - 1];
        match Colors(digits[1..])
        case Err(e) =>
          assert FirstInvalid(digits, e) by {
            var i :| FirstInvalidAt(digits[1..], e, i);
            assert FirstInvalidAt(digits, e, i + 1);
          }
          Err(e)
        case Ok(rest) => Ok([c] + rest)
  }

  /** `e` reports the first digit that is not a colour. */
  ghost predicate FirstInvalid(digits: seq<nat>, e: Fault) {
    exists i :: FirstInvalidAt(digits, e, i)
  }

  predicate FirstInvalidAt(digits: seq<nat>, e: Fault, i: int) {
    && 0 <= i < |digits| && digits[i] > 2 && e == InvalidColorDigit(digits[i])
    && forall j :: 0 <= j < i ==> digits[j] <= 2
  }

  /** `count * size`, by repeated addition (so that the chunk proofs stay
      linear). */
  function Mul(count: nat, size: nat): nat {
    if count == 0 then 0 else Mul(count - 1, size) + size
  }

  lemma {:induction false} MulIsProduct(count: nat, size: nat)
    ensures Mul(count, size) == count * size
  {
    if count > 0 {
      MulIsProduct(count - 1, size);
    }
  }

  /** The `chunks_exact` of `count * size` pixels into `count` layers of
      `size` pixels. */
  function Chunks(pixels: Layer, size: nat, count: nat): (layers: seq<Layer>)
    requires |pixels| == Mul(count, size)
    ensures |layers| == count
    ensures forall k :: 0 <= k < count ==> |layers[k]| == size
    decreases count
  {
    if count == 0 then [] else [pixels[..size]] + Chunks(pixels[size..], size, count - 1)
  }

  /** Layer `k` holds pixels `k * size` up to `(k + 1) * size`. */
  lemma {:induction false} ChunkContents(pixels: Layer, size: nat, count: nat, k: nat)
    requires |pixels| == Mul(count, size) && k < count
    ensures Mul(k, size) + size <= |pixels|
    ensures Chunks(pixels, size, count)[k] == pixels[Mul(k, size)..Mul(k, size) + size]
    decreases k
  {
    if k > 0 {
      ChunkContents(pixels[size..], size, count - 1, k - 1);
    }
  }

  /** `SpaceImage::from_digits`: a layer size of zero is fatal (the chunk
      size of `chunks_exact`), so is a remainder, then so is the first
      digit that is not a colour. */
  function FromDigits(digits: seq<nat>, width: nat, height: nat): (r: Result<SpaceImage>)
    ensures r.Ok? ==> r.value.width == width && r.value.height == height && WellFormed(r.value)
    ensures r.Ok? ==> Mul(|r.value.layers|, width * height) == |digits|
    ensures r == Err(ZeroLayerSize) <==> width * height == 0
    ensures r == Err(DimensionMismatch) <==> width * height > 0 && |digits| % (width * height) != 0
    ensures r.Ok? <==> width * height > 0 && |digits| % (width * height) == 0 && forall i :: 0 <= i < |digits| ==> digits[i] <= 2
    ensures r.Err? && width * height > 0 && |digits| % (width * height) == 0 ==> FirstInvalid(digits, r.error)
  {
    var size := width * height;
    if size == 0 then Err(ZeroLayerSize)
    else if |digits| % size != 0 then Err(DimensionMismatch)
    else
      var count := |digits| / size;
      MulIsProduct(count, size);
      assert |digits| == Mul(count, size);
      match Colors(digits)
      case Err(e) =>
        assert e.InvalidColorDigit? by {
          var i :| FirstInvalidAt(digits, e, i);
        }
        Err(e)
      case Ok(pixels) => Ok(SpaceImage(Chunks(pixels, size, count), width, height))
  }

  /** On success the layers are the chunks of the colour mapping. */
  lemma FromDigitsChunks(digits: seq<nat>, width: nat, height: nat, image: SpaceImage)
    requires FromDigits(digits, width, height) == Ok(image)
    ensures width * height > 0 && Colors(digits).Ok?
    ensures |digits| == Mul(|image.layers|, width * height)
    ensures image.layers == Chunks(Colors(digits).value, width * height, |image.layers|)
  {
    MulIsProduct(|digits| / (width * height), width * height);
  }

  /** On success, pixel `i` of layer `k` is the colour of digit
      `k * w * h + i`. */
  lemma LayerContents(digits: seq<nat>, width: nat, height: nat, image: SpaceImage, k: nat, i: nat)
    requires FromDigits(digits, width, height) == Ok(image)
    requires k < |image.layers| && i < width * height
    ensures Mul(k, width * height) + i < |digits|
    ensures ColorFrom(digits[Mul(k, width * height) + i]) == Ok(image.layers[k][i])
  {
    FromDigitsChunks(digits, width, height, image);
    var size, pixels := width * height, Colors(digits).value;
    ChunkContents(pixels, size, |image.layers|, k);
    assert image.layers[k][i] == pixels[Mul(k, size) + i];
  }

  /** Colours given digit by digit are the colours of the digits. */
  lemma {:induction false} ColorsOfEach(digits: seq<nat>, colors: Layer)
    requires |colors| == |digits|
    requires forall i :: 0 <= i < |digits| ==> ColorFrom(digits[i]) == Ok(colors[i])
    ensures Colors(digits) == Ok(colors)
    decreases |digits|
  {
    if digits != [] {
      assert forall i :: 0 <= i < |digits| - 1 ==> digits[1..][i] == digits[i + 1] && colors[1..][i] == colors[i + 1];
      ColorsOfEach(digits[1..], colors[1..]);
      assert colors == [colors[0]] + colors[1..];
    }
  }

  /** Pixel `i` of the layers laid over each other, the first layer on top:
      what the layers above leave transparent, the next layer fills. */
  function Composite(layers: seq<Layer>, i: nat): (c: Color)
    requires forall k :: 0 <= k < |layers| ==> i < |layers[k]|
    ensures c == Transparent || exists k :: 0 <= k < |layers| && layers[k][i] == c
    decreases |layers|
  {
    if layers == [] then Transparent
    else
      var above := Composite(layers[..|layers| - 1], i);
      if above == Transparent then layers[|layers| - 1][i] else above
  }

  /** The composite is the colour of the first layer that is not
      transparent there, and transparent only when every layer is. */
  lemma {:induction false} CompositeIsFirstVisible(layers: seq<Layer>, i: nat)
    requires forall k :: 0 <= k < |layers| ==> i < |layers[k]|
    ensures Composite(layers, i) == Transparent <==> forall k :: 0 <= k < |layers| ==> layers[k][i] == Transparent
    ensures Composite(layers, i) != Transparent ==>
      exists k :: 0 <= k < |layers| && layers[k][i] == Composite(layers, i) && (forall j :: 0 <= j < k ==> layers[j][i] == Transparent)
    decreases |layers|
  {
    if layers != [] {
      var upper := layers[..|layers| - 1];
      CompositeIsFirstVisible(upper, i);
      assert forall k :: 0 <= k < |upper| ==> upper[k] == layers[k];
    }
  }

  /** A single layer decodes to itself. */
  lemma CompositeOfOneLayer(layer: Layer, i: nat)
    requires i < |layer|
    ensures Composite([layer], i) == layer[i]
  {
    assert [layer][..0] == [];
  }

  /** `decode`: a buffer of transparent pixels, and every layer in turn
      paints the pixels that are still transparent. */
  method Decode(image: SpaceImage) returns (decoded: Layer)
    requires WellFormed(image)
    ensures |decoded| == image.width * image.height
    ensures forall i :: 0 <= i < |decoded| ==> decoded[i] == Composite(image.layers, i)
  {
    var size := image.width * image.height;
    var buffer := new Color[size](_ => Transparent);
    for k := 0 to |image.layers|
      invariant forall i :: 0 <= i < size ==> buffer[i] == Composite(image.layers[..k], i)
    {
      Paint(buffer, image.layers[k]);
      assert image.layers[..k + 1][..k] == image.layers[..k];
    }
    assert image.layers[..|image.layers|] == image.layers;
    decoded := buffer[..];
  }

  /** The inner loop of `decode`: one layer over the buffer. */
  method Paint(buffer: array<Color>, layer: Layer)
    requires |layer| == buffer.Length
    modifies buffer
    ensures forall i :: 0 <= i < buffer.Length ==>
      buffer[i] == if old(buffer[i]) == Transparent then layer[i] else old(buffer[i])
  {
    for i := 0 to |layer|
      invariant forall j :: 0 <= j < i ==> buffer[j] == if old(buffer[j]) == Transparent then layer[j] else old(buffer[j])
      invariant forall j :: i <= j < buffer.Length ==> buffer[j] == old(buffer[j])
    {
      if buffer[i] == Transparent {
        buffer[i] := layer[i];
      }
    }
  }

  /** The `filter(...).count()` of one colour. */
  function Count(layer: Layer, c: Color): (n: nat)
    ensures n <= |layer|
    decreases |layer|
  {
    if layer == [] then 0 else (if layer[0] == c then 1 else 0) + Count(layer[1..], c)
  }

  /** Every pixel has exactly one of the three colours. */
  lemma {:induction false} CountsPartition(layer: Layer)
    ensures Count(layer, Black) + Count(layer, White) + Count(layer, Transparent) == |layer|
    decreases |layer|
  {
    if layer != [] {
      CountsPartition(layer[1..]);
    }
  }

  /** No pixel of the colour means a count of zero, and back. */
  lemma {:induction false} CountZero(layer: Layer, c: Color)
    ensures Count(layer, c) == 0 <==> forall i :: 0 <= i < |layer| ==> layer[i] != c
    decreases |layer|
  {
    if layer != [] {
      CountZero(layer[1..], c);
      assert forall i :: 1 <= i < |layer| ==> layer[i] == layer[1..][i - 1];
    }
  }

  /** `find_layer_fewest_zeroes`: the first layer with the fewest black
      pixels; the bound starts one above the layer size, and a layer only
      replaces the best so far when strictly better. */
  method FindLayerFewestZeroes(image: SpaceImage) returns (r: Result<Layer>, ghost index: nat)
    ensures r.Ok? ==> index < |image.layers| && r.value == image.layers[index]
    ensures r.Ok? ==> Count(r.value, Black) <= image.width * image.height
    ensures r.Ok? ==> forall k :: 0 <= k < |image.layers| ==> Count(r.value, Black) <= Count(image.layers[k], Black)
    ensures r.Ok? ==> forall k :: 0 <= k < index ==> Count(image.layers[k], Black) > Count(r.value, Black)
    ensures r.Err? <==> forall k :: 0 <= k < |image.layers| ==> Count(image.layers[k], Black) > image.width * image.height
    ensures r.Err? ==> r.error == NoLayer
  {
    var fewestZeroes := image.width * image.height + 1;
    var fewestZeroesLayer: Option<Layer> := None;
    index := 0;
    for k := 0 to |image.layers|
      invariant fewestZeroesLayer.None? ==> fewestZeroes == image.width * image.height + 1
      invariant fewestZeroesLayer.Some? ==>
        index < k && fewestZeroesLayer.value == image.layers[index] && fewestZeroes == Count(image.layers[index], Black) <= image.width * image.height
      invariant forall j :: 0 <= j < k ==> Count(image.layers[j], Black) >= fewestZeroes
      invariant fewestZeroesLayer.Some? ==> forall j :: 0 <= j < index ==> Count(image.layers[j], Black) > fewestZeroes
    {
      var zeroes := Count(image.layers[k], Black);
      if zeroes < fewestZeroes {
        fewestZeroes := zeroes;
        fewestZeroesLayer := Some(image.layers[k]);
        index := k;
      }
    }
    if fewestZeroesLayer.Some? {
      return Ok(fewestZeroesLayer.value), index;
    }
    return Err(NoLayer), index;
  }

  /** For an image made by `FromDigits` no layer can have more black pixels
      than pixels, so the search fails exactly when there are no layers. */
  lemma NoLayerOnlyWhenEmpty(image: SpaceImage)
    requires WellFormed(image)
    ensures (forall k :: 0 <= k < |image.layers| ==> Count(image.layers[k], Black) > image.width * image.height)
      <==> image.layers == []
  {
    if image.layers != [] {
      assert Count(image.layers[0], Black) <= image.width * image.height;
    }
  }

  /** `run_day_8_1`: the number of white pixels times the number of
      transparent pixels of the layer with the fewest black ones. */
  method ImageChecksum(image: SpaceImage) returns (r: Result<nat>, ghost index: nat)
    ensures r.Ok? ==> index < |image.layers|
    ensures r.Ok? ==> r.value == Count(image.layers[index], White) * Count(image.layers[index], Transparent)
    ensures r.Ok? ==> forall k :: 0 <= k < |image.layers| ==> Count(image.layers[index], Black) <= Count(image.layers[k], Black)
    ensures r.Err? <==> forall k :: 0 <= k < |image.layers| ==> Count(image.layers[k], Black) > image.width * image.height
  {
    var layer;
    layer, index := FindLayerFewestZeroes(image);
    if layer.Err? {
      return Err(layer.error), index;
    }
    var ones := Count(layer.value, White);
    var twos := Count(layer.value, Transparent);
    return Ok(ones * twos), index;
  }

  /** The puzzle's example: `123456789012` as a 3 by 2 image. The digits
      3 to 9 are not colours, so it is rejected at the first of them. */
  lemma FromDigitsExample()
    ensures FromDigits([1, 2, 3, 4, 5, 6, 7, 8, 9, 0, 1, 2], 3, 2) == Err(InvalidColorDigit(3))
  {
    var digits: seq<nat> := [1, 2, 3, 4, 5, 6, 7, 8, 9, 0, 1, 2];
    var e := FromDigits(digits, 3, 2).error;
    var i :| FirstInvalidAt(digits, e, i);
    assert digits[2] > 2;
  }

  /** The decoding example: `0222112222120000` as a 2 by 2 image decodes
      to black, white, white, black. */
  lemma CompositeExample()
    ensures var layers := [[Black, Transparent, Transparent, Transparent], [White, White, Transparent, Transparent],
      [Transparent, Transparent, White, Transparent], [Black, Black, Black, Black]];
      && Composite(layers, 0) == Black && Composite(layers, 1) == White
      && Composite(layers, 2) == White && Composite(layers, 3) == Black
  {
    var a, b, c, d := [Black, Transparent, Transparent, Transparent], [White, White, Transparent, Transparent],
      [Transparent, Transparent, White, Transparent], [Black, Black, Black, Black];
    var layers := [a, b, c, d];
    assert layers[..3] == [a, b, c] && [a, b, c][..2] == [a, b] && [a, b][..1] == [a] && [a][..0] == [];
    assert Composite([a], 0) == Black;
    assert Composite([a], 1) == Transparent;
    assert Composite([a], 2) == Transparent;
    assert Composite([a], 3) == Transparent;
    assert Composite([a, b], 1) == White && Composite([a, b], 2) == Transparent && Composite([a, b], 3) == Transparent;
    assert Composite([a, b, c], 2) == White && Composite([a, b, c], 3) == Transparent;
  }
}
