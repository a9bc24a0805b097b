/** The animated cursor: which images to play, and which of them to show at a time. */
module Cursor {
  import opened Arithmetic
  import opened Prelude

  const HALF := 0x8000_0000

  datatype Image = Image(size: u32, width: u32, height: u32, delay: u32, pixels: int)

  /** The 32-bit signed number with these low bits. */
  function ToI32(x: int): int {
    (x + HALF) % TWO_32 - HALF
  }

  /** The distance of the nominal sizes, as the wrapping 32-bit arithmetic computes it. */
  function Distance(size: u32, image: Image): int {
    var d := ToI32(ToI32(size) - ToI32(image.size));
    if d < 0 then ToI32(-d) else d
  }

  /** That is the plain distance exactly for sizes less than 2^31 apart. */
  lemma DistanceIsPlain(size: u32, image: Image)
    ensures var d := if size < image.size then image.size - size else size - image.size;
            && (Distance(size, image) == d <==> d < HALF)
            && (d > HALF ==> Distance(size, image) == TWO_32 - d)
            && (d == HALF ==> Distance(size, image) == -HALF)
  {
    ToI32OfDifference(size, image.size);
  }

  lemma ToI32OfDifference(a: u32, b: u32)
    ensures ToI32(ToI32(a) - ToI32(b)) ==
      if a - b >= HALF then a - b - TWO_32 else if a - b < -HALF then a - b + TWO_32 else a - b
  {
  }

  /** `i` is the first of the images nearest to the size. */
  ghost predicate IsNearest(size: u32, images: seq<Image>, i: nat) {
    && i < |images|
    && (forall j :: 0 <= j < |images| ==> Distance(size, images[i]) <= Distance(size, images[j]))
    && (forall j :: 0 <= j < i ==> Distance(size, images[i]) < Distance(size, images[j]))
  }

  /** The images with these dimensions, in order. */
  function OfDimensions(images: seq<Image>, width: u32, height: u32): seq<Image> {
    if images == [] then []
    else
      OfDimensions(Init(images), width, height) +
      (if Last(images).width == width && Last(images).height == height then [Last(images)] else [])
  }

  ghost predicate IsSelection(size: u32, images: seq<Image>, selected: seq<Image>) {
    exists i: nat :: IsNearest(size, images, i) && selected == OfDimensions(images, images[i].width, images[i].height)
  }

  lemma {:induction false} OfDimensionsHas(images: seq<Image>, i: nat)
    requires i < |images|
    ensures images[i] in OfDimensions(images, images[i].width, images[i].height)
  {
    if i < |images| - 1 {
      OfDimensionsHas(Init(images), i);
    }
  }

  ghost predicate HasDimensions(image: Image, width: u32, height: u32) {
    image.width == width && image.height == height
  }

  /** `r` is what stands at these indices, which are those of the images with these dimensions, in order. */
  ghost predicate StandAt(images: seq<Image>, width: u32, height: u32, at: seq<nat>, r: seq<Image>) {
    && |at| == |r| && Within(at, |images|)
    && (forall j, k :: 0 <= j < k < |at| ==> at[j] < at[k])
    && (forall k :: 0 <= k < |at| ==> r[k] == images[at[k]])
    && (forall i :: 0 <= i < |images| ==> (i in at <==> HasDimensions(images[i], width, height)))
  }

  /** The selection is the images with these dimensions, each once and in the order they had. */
  lemma {:induction false} OfDimensionsIs(images: seq<Image>, width: u32, height: u32) returns (at: seq<nat>)
    ensures StandAt(images, width, height, at, OfDimensions(images, width, height))
  {
    if images == [] {
      return [];
    }
    hide StandAt;
    var some := OfDimensionsIs(Init(images), width, height);
    var fits := HasDimensions(Last(images), width, height);
    at := some + if fits then [|images| - 1] else [];
    OneMoreImage(images, width, height, some, OfDimensions(Init(images), width, height), at,
                 OfDimensions(images, width, height));
  }

  lemma OneMoreImage(images: seq<Image>, width: u32, height: u32, some: seq<nat>, r: seq<Image>,
                     at: seq<nat>, r': seq<Image>)
    requires images != [] && StandAt(Init(images), width, height, some, r)
    requires var fits := HasDimensions(Last(images), width, height);
             && at == some + (if fits then [|images| - 1] else [])
             && r' == r + (if fits then [Last(images)] else [])
    ensures StandAt(images, width, height, at, r')
  {
    hide HasDimensions;
    IndexOfLast(some, at, |images| - 1, HasDimensions(Last(images), width, height));
    assert forall k :: 0 <= k < |some| ==> at[k] == some[k] && r'[k] == r[k];
    assert forall i :: 0 <= i < |images| - 1 ==> images[i] == Init(images)[i];
  }

  lemma IndexOfLast(some: seq<nat>, at: seq<nat>, n: nat, fits: bool)
    requires Within(some, n) && at == some + if fits then [n] else []
    ensures forall i :: 0 <= i < n ==> (i in at <==> i in some)
    ensures n in at <==> fits
  {
    if fits {
      assert at[|some|] == n;
    }
  }

  method NearestImages(size: u32, images: seq<Image>) returns (selected: seq<Image>)
    requires images != []
    ensures IsSelection(size, images, selected) && selected != []
  {
    var nearest := 0;
    for i := 1 to |images|
      invariant nearest < i
      invariant forall j :: 0 <= j < i ==> Distance(size, images[nearest]) <= Distance(size, images[j])
      invariant forall j :: 0 <= j < nearest ==> Distance(size, images[nearest]) < Distance(size, images[j])
    {
      if Distance(size, images[i]) < Distance(size, images[nearest]) {
        nearest := i;
      }
    }
    var width, height := images[nearest].width, images[nearest].height;
    selected := [];
    for i := 0 to |images|
      invariant selected == OfDimensions(images[..i], width, height)
    {
      assert Init(images[..i + 1]) == images[..i];
      if images[i].width == width && images[i].height == height {
        selected := selected + [images[i]];
      }
    }
    assert images[..|images|] == images;
    OfDimensionsHas(images, nearest);
    assert IsNearest(size, images, nearest);
  }

  /** The time at which image `n` of the animation starts. */
  function Time(selected: seq<Image>, n: nat): nat
    requires n <= |selected|
  {
    if n == 0 then 0 else Time(selected, n - 1) + selected[n - 1].delay
  }

  /** The sum of all delays, as 32-bit arithmetic computes it. */
  function Total(selected: seq<Image>): nat {
    Time(selected, |selected|) % TWO_32
  }

  /** Image `k` is the one to show at `millis`. */
  ghost predicate Shown(selected: seq<Image>, millis: nat, k: nat) {
    && k < |selected|
    && if Total(selected) == 0 then k == 0
       else Time(selected, k) <= millis % Total(selected) < Time(selected, k + 1)
  }

  /** `frame`; `None` is the panic on an empty list, and `unreachable!` is never reached. */
  method Frame(millis: u32, size: u32, images: seq<Image>) returns (r: Option<Image>)
    ensures r.None? <==> images == []
    ensures r.Some? ==> exists selected, k ::
      IsSelection(size, images, selected) && Shown(selected, millis, k) && r == Some(selected[k])
  {
    if images == [] {
      return None;
    }
    var selected := NearestImages(size, images);
    var total := 0;
    for i := 0 to |selected|
      invariant total == Time(selected, i) % TWO_32
    {
      AddWraps(Time(selected, i), selected[i].delay);
      total := (total + selected[i].delay) % TWO_32;
    }
    if total == 0 {
      assert Shown(selected, millis, 0);
      return Some(selected[0]);
    }
    var rest := millis % total;
    TotalIsReached(selected);
    for k := 0 to |selected|
      invariant 0 <= rest && Time(selected, k) + rest == millis % total
    {
      if rest < selected[k].delay {
        assert Shown(selected, millis, k);
        return Some(selected[k]);
      }
      rest := rest - selected[k].delay;
    }
    assert false;
  }

  lemma AddWraps(a: nat, b: nat)
    ensures (a + b) % TWO_32 == (a % TWO_32 + b) % TWO_32
  {
  }

  lemma TotalIsReached(selected: seq<Image>)
    ensures Total(selected) <= Time(selected, |selected|)
  {
  }

  lemma {:induction false} TimeIsMonotone(selected: seq<Image>, m: nat, n: nat)
    requires m <= n <= |selected|
    ensures Time(selected, m) <= Time(selected, n)
    decreases n
  {
    if m < n {
      TimeIsMonotone(selected, m, n - 1);
    }
  }

  /** At every moment exactly one image is shown. */
  lemma ShownIsUnique(selected: seq<Image>, millis: nat, j: nat, k: nat)
    requires Shown(selected, millis, j) && Shown(selected, millis, k)
    ensures j == k
  {
    if j < k {
      TimeIsMonotone(selected, j + 1, k);
    } else if k < j {
      TimeIsMonotone(selected, k + 1, j);
    }
  }

  /** The animation repeats with the total delay, however many rounds later. */
  lemma AnimationIsPeriodic(selected: seq<Image>, millis: nat, rounds: nat, k: nat)
    ensures Shown(selected, millis, k) <==> Shown(selected, millis + rounds * Total(selected), k)
  {
    if Total(selected) > 0 {
      RoundsVanish(millis, rounds, Total(selected));
    }
  }

  /**
   * When the delays sum to less than 2^32, each image is shown in a round for exactly its
   * own delay.
   */
  lemma EachImageHasItsDelay(selected: seq<Image>, millis: nat, k: nat)
    requires 0 < Time(selected, |selected|) < TWO_32 && k < |selected|
    requires millis < Time(selected, |selected|)
    ensures Shown(selected, millis, k) <==> Time(selected, k) <= millis < Time(selected, k) + selected[k].delay
  {
    assert Total(selected) == Time(selected, |selected|);
    SmallMod(millis, Total(selected));
  }

  lemma SmallMod(x: nat, n: nat)
    requires x < n
    ensures x % n == x
  {
  }
}
